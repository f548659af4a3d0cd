/**
 The expected-status matcher, written once in Go (the ping engine) and once in
 TypeScript (check-now), against the grammar the monitor schema accepts: a
 comma-separated list of codes ("200"), classes ("2xx") and ranges ("200-299")
 with white space around every item and around the dash of a range.
 */
module StatusSpec {
  import opened Common

  datatype Lang = Go | Ts

  const BYTE_ORDER_MARK := '\U{FEFF}'

  predicate CommonSpace(c: char) {
    '\U{0009}' <= c <= '\U{000D}' || c == ' ' || c == '\U{00A0}' || c == '\U{1680}' ||
    '\U{2000}' <= c <= '\U{200A}' || c == '\U{2028}' || c == '\U{2029}' || c == '\U{202F}' ||
    c == '\U{205F}' || c == '\U{3000}'
  }

  // unicode.IsSpace, and the white space of ECMAScript (\s and trim).
  predicate Space(l: Lang, c: char) {
    CommonSpace(c) || (l.Go? && c == '\U{0085}') || (l.Ts? && c == BYTE_ORDER_MARK)
  }

  // ------------------------------------------------------ String library

  function TrimLeft(l: Lang, s: string): string {
    if s != [] && Space(l, s[0]) then TrimLeft(l, s[1..]) else s
  }

  function TrimRight(l: Lang, s: string): string {
    if s != [] && Space(l, s[|s| - 1]) then TrimRight(l, s[..|s| - 1]) else s
  }

  function Trim(l: Lang, s: string): string { TrimRight(l, TrimLeft(l, s)) }

  function Split(s: string, sep: char): (r: seq<string>)
    ensures |r| >= 1
  {
    if s == [] then [""]
    else if s[0] == sep then [""] + Split(s[1..], sep)
    else
      var rest := Split(s[1..], sep);
      [[s[0]] + rest[0]] + rest[1..]
  }

  // strings.SplitN(s, sep, 2), for a string that contains sep.
  function Cut(s: string, sep: char): (string, string) {
    if s == [] then ("", "")
    else if s[0] == sep then ("", s[1..])
    else var (a, b) := Cut(s[1..], sep); ([s[0]] + a, b)
  }

  predicate IsDigit(c: char) { '0' <= c <= '9' }

  predicate AllDigits(s: string) { forall i :: 0 <= i < |s| ==> IsDigit(s[i]) }

  function Value(s: string): nat
    requires AllDigits(s)
  {
    if s == [] then 0 else 10 * Value(s[..|s| - 1]) + (s[|s| - 1] as int - '0' as int)
  }

  const MAX_INT64 := 0x7FFF_FFFF_FFFF_FFFF

  // strconv.Atoi: an optional sign and at least one digit, within 64 bits.
  function Atoi(s: string): Option<int> {
    var digits := if s != [] && (s[0] == '+' || s[0] == '-') then s[1..] else s;
    if digits == [] || !AllDigits(digits) || Value(digits) > MAX_INT64 then None
    else
      var v: int := Value(digits);
      Some(if s[0] == '-' then -v else v)
  }

  // JavaScript's Number on decimal digits and on the empty string.
  function Number(s: string): Option<int> {
    if AllDigits(s) then Some(Value(s)) else None
  }

  function Utf8Length(s: string): nat {
    if s == [] then 0
    else (if s[0] < '\U{0080}' then 1 else if s[0] < '\U{0800}' then 2 else if s[0] < '\U{10000}' then 3 else 4) +
         Utf8Length(s[1..])
  }

  // ---------------------------------------------------- The two matchers

  // One part of the list, trimmed and lower-cased.
  predicate GoReadsAs(code: nat, part: string) {
    if part == "" then false
    else if |part| >= 2 && part[|part| - 2..] == "xx" && Utf8Length(part) == 3 then
      Atoi(part[..1]) == Some(code / 100)
    else if '-' in part then
      var (left, right) := Cut(part, '-');
      var lo, hi := Atoi(Trim(Go, left)), Atoi(Trim(Go, right));
      lo.Some? && hi.Some? && lo.value <= code <= hi.value
    else Atoi(part) == Some(code)
  }

  predicate TsReadsAs(code: nat, part: string) {
    if part == "" then false
    else if |part| == 3 && IsDigit(part[0]) && part[1..] == "xx" then
      code / 100 == part[0] as int - '0' as int
    else if '-' in part then
      var bounds := Split(part, '-');
      var lo := Number(Trim(Ts, bounds[0]));
      var hi := if |bounds| > 1 then Number(Trim(Ts, bounds[1])) else None;
      lo.Some? && hi.Some? && lo.value <= code <= hi.value
    else Number(part) == Some(code)
  }

  predicate GoPartMatches(code: nat, raw: string) { GoReadsAs(code, Lower(Trim(Go, raw))) }

  predicate TsPartMatches(code: nat, raw: string) { TsReadsAs(code, Lower(Trim(Ts, raw))) }

  function Fallback(expectedStatus: int): int {
    if expectedStatus == 0 then 200 else expectedStatus
  }

  // spec.split(",").some(...)
  predicate TsStatusMatches(code: nat, expectedStatusMatch: Option<string>, expectedStatus: int) {
    var spec := Trim(Ts, expectedStatusMatch.GetOr(""));
    if spec == "" then code == Fallback(expectedStatus)
    else exists i :: 0 <= i < |Split(spec, ',')| && TsPartMatches(code, Split(spec, ',')[i])
  }

  predicate GoMatches(code: nat, expectedStatusMatch: string, expectedStatus: int) {
    var spec := Trim(Go, expectedStatusMatch);
    if spec == "" then code == Fallback(expectedStatus)
    else exists i :: 0 <= i < |Split(spec, ',')| && GoPartMatches(code, Split(spec, ',')[i])
  }

  // The cases of one part.
  method GoPart(code: nat, part: string) returns (matches: bool)
    requires part != ""
    ensures matches == GoReadsAs(code, part)
  {
    if |part| >= 2 && part[|part| - 2..] == "xx" && Utf8Length(part) == 3 {
      var class_ := Atoi(part[..1]);
      return class_ == Some(code / 100);
    } else if '-' in part {
      var (left, right) := Cut(part, '-');
      var lo, hi := Atoi(Trim(Go, left)), Atoi(Trim(Go, right));
      return lo.Some? && hi.Some? && lo.value <= code <= hi.value;
    } else {
      var exact := Atoi(part);
      return exact == Some(code);
    }
  }

  method GoStatusMatches(code: nat, expectedStatusMatch: string, expectedStatus: int) returns (matches: bool)
    ensures matches == GoMatches(code, expectedStatusMatch, expectedStatus)
  {
    var spec := Trim(Go, expectedStatusMatch);
    if spec == "" {
      var expected := expectedStatus;
      if expected == 0 { expected := 200; }
      return code == expected;
    }
    var parts := Split(spec, ',');
    for i := 0 to |parts|
      invariant forall k :: 0 <= k < i ==> !GoPartMatches(code, parts[k])
    {
      var part := Lower(Trim(Go, parts[i]));
      if part == "" { continue; }
      var matched := GoPart(code, part);
      assert matched == GoPartMatches(code, parts[i]);
      if matched { return true; }
    }
    return false;
  }

  // ---------------------------------------------------------- The grammar

  datatype Item =
    | Exact(code: nat)
    | Class(class_: nat, x1: char, x2: char)
    | Range(lo: nat, hi: nat, beforeDash: string, afterDash: string)

  datatype Spaced = Spaced(before: string, item: Item, after: string)

  predicate AllSpace(l: Lang, s: string) { forall i :: 0 <= i < |s| ==> Space(l, s[i]) }

  // The schema's regular expression, case-insensitive.
  predicate ItemOk(i: Item) {
    match i
    case Exact(n) => n < 1000
    case Class(d, x1, x2) => d < 10 && (x1 == 'x' || x1 == 'X') && (x2 == 'x' || x2 == 'X')
    case Range(lo, hi, before, after) => lo < 1000 && hi < 1000 && AllSpace(Ts, before) && AllSpace(Ts, after)
  }

  predicate SpacedOk(p: Spaced) { ItemOk(p.item) && AllSpace(Ts, p.before) && AllSpace(Ts, p.after) }

  predicate SpecOk(items: seq<Spaced>) {
    items != [] && forall i :: 0 <= i < |items| ==> SpacedOk(items[i])
  }

  function Digit(d: nat): char
    requires d < 10
  {
    ('0' as int + d) as char
  }

  function ThreeDigits(n: nat): string
    requires n < 1000
  {
    [Digit(n / 100), Digit(n / 10 % 10), Digit(n % 10)]
  }

  function Core(i: Item): string
    requires ItemOk(i)
  {
    match i
    case Exact(n) => ThreeDigits(n)
    case Class(d, x1, x2) => [Digit(d), x1, x2]
    case Range(lo, hi, before, after) => ThreeDigits(lo) + before + "-" + after + ThreeDigits(hi)
  }

  function Printed(p: Spaced): string
    requires SpacedOk(p)
  {
    p.before + Core(p.item) + p.after
  }

  function Printout(items: seq<Spaced>): seq<string>
    requires forall i :: 0 <= i < |items| ==> SpacedOk(items[i])
  {
    seq(|items|, i requires 0 <= i < |items| => Printed(items[i]))
  }

  function Join(parts: seq<string>, sep: char): string {
    if parts == [] then "" else if |parts| == 1 then parts[0] else parts[0] + [sep] + Join(parts[1..], sep)
  }

  // Every spec the schema accepts is the text of some list of items.
  function SpecText(items: seq<Spaced>): string
    requires SpecOk(items)
  {
    Join(Printout(items), ',')
  }

  // What an item means.
  predicate Denotes(i: Item, code: nat) {
    match i
    case Exact(n) => code == n
    case Class(d, _, _) => code / 100 == d
    case Range(lo, hi, _, _) => lo <= code <= hi
  }

  // ---------------------------------------------------- Splitting a spec

  lemma {:induction false} SplitOfPart(s: string, sep: char)
    requires sep !in s
    ensures Split(s, sep) == [s]
  {
    if s == [] {
    } else {
      SplitOfPart(s[1..], sep);
      assert [s[0]] + s[1..] == s;
    }
  }

  lemma {:induction false} SplitAfterPart(s: string, sep: char, rest: string)
    requires sep !in s
    ensures Split(s + [sep] + rest, sep) == [s] + Split(rest, sep)
  {
    var all := s + [sep] + rest;
    if s == [] {
      assert all[1..] == rest;
    } else {
      assert all[1..] == s[1..] + [sep] + rest;
      SplitAfterPart(s[1..], sep, rest);
      assert [s[0]] + s[1..] == s;
    }
  }

  lemma {:induction false} SplitOfJoin(parts: seq<string>, sep: char)
    requires parts != [] && forall i :: 0 <= i < |parts| ==> sep !in parts[i]
    ensures Split(Join(parts, sep), sep) == parts
  {
    if |parts| == 1 {
      SplitOfPart(parts[0], sep);
    } else {
      SplitAfterPart(parts[0], sep, Join(parts[1..], sep));
      SplitOfJoin(parts[1..], sep);
    }
  }

  // ------------------------------------------------------------- Trimming

  lemma {:induction false} TrimLeftAppend(l: Lang, s: string, c: char)
    requires !Space(l, c)
    ensures TrimLeft(l, s + [c]) == TrimLeft(l, s) + [c]
  {
    if s == [] {
    } else if Space(l, s[0]) {
      assert (s + [c])[1..] == s[1..] + [c];
      TrimLeftAppend(l, s[1..], c);
    }
  }

  lemma {:induction false} TrimLeftSpace(l: Lang, s: string, rest: string)
    requires AllSpace(l, s)
    ensures TrimLeft(l, s + rest) == TrimLeft(l, rest)
  {
    if s == [] {
      assert s + rest == rest;
    } else {
      assert (s + rest)[1..] == s[1..] + rest;
      TrimLeftSpace(l, s[1..], rest);
    }
  }

  lemma {:induction false} TrimRightSpace(l: Lang, s: string, rest: string)
    requires AllSpace(l, s)
    ensures TrimRight(l, rest + s) == TrimRight(l, rest)
  {
    if s == [] {
      assert rest + s == rest;
    } else {
      assert (rest + s)[..|rest + s| - 1] == rest + s[..|s| - 1];
      TrimRightSpace(l, s[..|s| - 1], rest);
    }
  }

  lemma TrimRightAppend(l: Lang, s: string, c: char)
    ensures TrimRight(l, s + [c]) == if Space(l, c) then TrimRight(l, s) else s + [c]
  {
    assert (s + [c])[..|s|] == s;
  }

  // The two ends are independent.
  lemma {:induction false} TrimRightPrepend(l: Lang, c: char, s: string)
    ensures TrimRight(l, [c] + s) == if TrimRight(l, s) == [] then TrimRight(l, [c]) else [c] + TrimRight(l, s)
  {
    if s == [] {
      assert [c] + s == [c];
    } else {
      var front, last := s[..|s| - 1], s[|s| - 1];
      assert s == front + [last] && [c] + s == ([c] + front) + [last];
      TrimRightAppend(l, front, last);
      TrimRightAppend(l, [c] + front, last);
      TrimRightPrepend(l, c, front);
    }
  }

  lemma TrimOfSpaceThen(l: Lang, c: char, s: string)
    requires Space(l, c)
    ensures Trim(l, [c] + s) == Trim(l, s)
  {
    assert ([c] + s)[1..] == s;
  }

  lemma {:induction false} TrimThenSpace(l: Lang, s: string, c: char)
    requires Space(l, c)
    ensures Trim(l, s + [c]) == Trim(l, s)
  {
    if s == [] {
      assert s + [c] == [c];
      assert [c][1..] == [];
    } else if Space(l, s[0]) {
      assert (s + [c])[1..] == s[1..] + [c];
      TrimThenSpace(l, s[1..], c);
    } else {
      assert (s + [c])[..|s|] == s;
    }
  }

  // Trimming the whole text first does not change any trimmed part.
  predicate SameTrimmed(l: Lang, a: seq<string>, b: seq<string>) {
    |a| == |b| && forall i :: 0 <= i < |a| ==> Trim(l, a[i]) == Trim(l, b[i])
  }

  lemma {:induction false} SplitOfTrimLeft(l: Lang, s: string, sep: char)
    requires !Space(l, sep)
    ensures SameTrimmed(l, Split(TrimLeft(l, s), sep), Split(s, sep))
  {
    if s == [] {
    } else if Space(l, s[0]) {
      SplitOfTrimLeft(l, s[1..], sep);
      TrimOfSpaceThen(l, s[0], Split(s[1..], sep)[0]);
    }
  }

  // The list with c appended to its last part.
  function LastAppended(parts: seq<string>, c: char): seq<string>
    requires parts != []
  {
    parts[..|parts| - 1] + [parts[|parts| - 1] + [c]]
  }

  lemma LastAppendedAfter(first: string, parts: seq<string>, c: char)
    requires parts != []
    ensures LastAppended([first] + parts, c) == [first] + LastAppended(parts, c)
  {
    assert ([first] + parts)[..|parts|] == [first] + parts[..|parts| - 1];
  }

  // Both change one part, the first and the last, in either order.
  lemma LastAppendedBelow(head: char, parts: seq<string>, c: char)
    requires parts != []
    ensures var more := LastAppended(parts, c);
            LastAppended([[head] + parts[0]] + parts[1..], c) == [[head] + more[0]] + more[1..]
  {
    if |parts| == 1 {
      assert [head] + (parts[0] + [c]) == [head] + parts[0] + [c];
    } else {
      assert parts == [parts[0]] + parts[1..];
      LastAppendedAfter(parts[0], parts[1..], c);
      LastAppendedAfter([head] + parts[0], parts[1..], c);
    }
  }

  lemma {:induction false} SplitAppend(s: string, c: char, sep: char)
    requires c != sep
    ensures Split(s + [c], sep) == LastAppended(Split(s, sep), c)
  {
    if s == [] {
      assert s + [c] == [c];
      SplitOfPart([c], sep);
      assert [] + [c] == [c];
    } else {
      assert (s + [c])[1..] == s[1..] + [c] && (s + [c])[0] == s[0];
      SplitAppend(s[1..], c, sep);
      if s[0] == sep {
        LastAppendedAfter("", Split(s[1..], sep), c);
      } else {
        LastAppendedBelow(s[0], Split(s[1..], sep), c);
      }
    }
  }

  lemma LastSpaceIsTrimmed(l: Lang, parts: seq<string>, c: char)
    requires parts != [] && Space(l, c)
    ensures SameTrimmed(l, parts, LastAppended(parts, c))
  {
    TrimThenSpace(l, parts[|parts| - 1], c);
  }

  lemma SplitThenSpace(l: Lang, s: string, c: char, sep: char)
    requires Space(l, c) && !Space(l, sep)
    ensures SameTrimmed(l, Split(s, sep), Split(s + [c], sep))
  {
    SplitAppend(s, c, sep);
    LastSpaceIsTrimmed(l, Split(s, sep), c);
  }

  lemma {:induction false} SplitOfTrimRight(l: Lang, s: string, sep: char)
    requires !Space(l, sep)
    ensures SameTrimmed(l, Split(TrimRight(l, s), sep), Split(s, sep))
  {
    if s == [] {
    } else if Space(l, s[|s| - 1]) {
      var front, c := s[..|s| - 1], s[|s| - 1];
      assert s == front + [c];
      SplitOfTrimRight(l, front, sep);
      SplitThenSpace(l, front, c, sep);
    }
  }

  lemma SplitOfTrim(l: Lang, s: string, sep: char)
    requires !Space(l, sep)
    ensures SameTrimmed(l, Split(Trim(l, s), sep), Split(s, sep))
  {
    SplitOfTrimRight(l, TrimLeft(l, s), sep);
    SplitOfTrimLeft(l, s, sep);
  }

  lemma TrimAround(l: Lang, before: string, core: string, after: string)
    requires AllSpace(l, before) && AllSpace(l, after)
    requires core != [] && !Space(l, core[0]) && !Space(l, core[|core| - 1])
    ensures Trim(l, before + core + after) == core
  {
    assert before + core + after == before + (core + after);
    TrimLeftSpace(l, before, core + after);
    assert (core + after)[0] == core[0];
    TrimRightSpace(l, after, core);
  }

  lemma {:induction false} TrimKeepsOthers(l: Lang, s: string, c: char)
    requires c in s && !Space(l, c)
    ensures c in Trim(l, s)
    decreases |s|
  {
    if Space(l, s[0]) {
      assert s == [s[0]] + s[1..];
      TrimKeepsOthers(l, s[1..], c);
      TrimOfSpaceThen(l, s[0], s[1..]);
    } else if Space(l, s[|s| - 1]) {
      var front := s[..|s| - 1];
      assert s == front + [s[|s| - 1]];
      TrimKeepsOthers(l, front, c);
      TrimThenSpace(l, front, s[|s| - 1]);
    }
  }

  // ------------------------------------------------------ Reading an item

  lemma ValueAppend(s: string, d: nat)
    requires AllDigits(s) && d < 10
    ensures AllDigits(s + [Digit(d)]) && Value(s + [Digit(d)]) == 10 * Value(s) + d
  {
    assert (s + [Digit(d)])[..|s|] == s;
  }

  lemma ValueOfThree(d2: nat, d1: nat, d0: nat)
    requires d2 < 10 && d1 < 10 && d0 < 10
    ensures var s := [Digit(d2), Digit(d1), Digit(d0)]; AllDigits(s) && Value(s) == 100 * d2 + 10 * d1 + d0
  {
    ValueAppend([], d2);
    ValueAppend([Digit(d2)], d1);
    ValueAppend([Digit(d2), Digit(d1)], d0);
    assert [] + [Digit(d2)] == [Digit(d2)];
    assert [Digit(d2)] + [Digit(d1)] == [Digit(d2), Digit(d1)];
    assert [Digit(d2), Digit(d1)] + [Digit(d0)] == [Digit(d2), Digit(d1), Digit(d0)];
  }

  lemma DigitsAreDigits(n: nat)
    requires n < 1000
    ensures AllDigits(ThreeDigits(n)) && Value(ThreeDigits(n)) == n
  {
    ValueOfThree(n / 100, n / 10 % 10, n % 10);
  }

  lemma CoreShape(i: Item)
    requires ItemOk(i)
    ensures var c := Core(i);
            c != [] && IsDigit(c[0]) && ',' !in c && (IsDigit(c[|c| - 1]) || c[|c| - 1] == 'x' || c[|c| - 1] == 'X')
  {
    if i.Range? {
      assert forall k :: 0 <= k < |i.beforeDash| ==> i.beforeDash[k] != ',';
      assert forall k :: 0 <= k < |i.afterDash| ==> i.afterDash[k] != ',';
    }
  }

  // The core after trimming and lower-casing.
  function Read(i: Item): string
    requires ItemOk(i)
  {
    match i
    case Exact(n) => ThreeDigits(n)
    case Class(d, _, _) => [Digit(d), 'x', 'x']
    case Range(lo, hi, before, after) => ThreeDigits(lo) + before + "-" + after + ThreeDigits(hi)
  }

  lemma LowerOfCore(i: Item)
    requires ItemOk(i)
    ensures Lower(Core(i)) == Read(i)
  {
    if i.Range? {
      assert forall k :: 0 <= k < |i.beforeDash| ==> LowerChar(i.beforeDash[k]) == i.beforeDash[k];
      assert forall k :: 0 <= k < |i.afterDash| ==> LowerChar(i.afterDash[k]) == i.afterDash[k];
    }
  }

  lemma {:induction false} CutAt(left: string, sep: char, right: string)
    requires sep !in left
    ensures Cut(left + [sep] + right, sep) == (left, right)
  {
    var all := left + [sep] + right;
    if left == [] {
      assert all[1..] == right;
    } else {
      assert all[1..] == left[1..] + [sep] + right;
      CutAt(left[1..], sep, right);
      assert [left[0]] + left[1..] == left;
    }
  }

  lemma RangeSplits(lo: nat, hi: nat, before: string, after: string)
    requires lo < 1000 && hi < 1000 && AllSpace(Ts, before) && AllSpace(Ts, after)
    ensures var text := ThreeDigits(lo) + before + "-" + after + ThreeDigits(hi);
      && '-' in text
      && Cut(text, '-') == (ThreeDigits(lo) + before, after + ThreeDigits(hi))
      && Split(text, '-') == [ThreeDigits(lo) + before, after + ThreeDigits(hi)]
  {
    var text := ThreeDigits(lo) + before + "-" + after + ThreeDigits(hi);
    var left, right := ThreeDigits(lo) + before, after + ThreeDigits(hi);
    assert text == left + ['-'] + right;
    assert text[|left|] == '-';
    NoDashAround(lo, before, []);
    NoDashAround(hi, [], after);
    assert [] + right == right && left + [] == left;
    CutAt(left, '-', right);
    SplitAfterPart(left, '-', right);
    SplitOfPart(right, '-');
  }

  lemma NoDashAround(n: nat, right: string, left: string)
    requires n < 1000 && AllSpace(Ts, right) && AllSpace(Ts, left)
    ensures '-' !in left + ThreeDigits(n) + right
  {
    DigitsAreDigits(n);
    assert forall k :: 0 <= k < |right| ==> right[k] != '-';
    assert forall k :: 0 <= k < |left| ==> left[k] != '-';
  }

  lemma TrimOfNumber(l: Lang, left: string, n: nat, right: string)
    requires n < 1000 && AllSpace(l, left) && AllSpace(l, right)
    ensures Trim(l, left + ThreeDigits(n) + right) == ThreeDigits(n)
  {
    DigitsAreDigits(n);
    assert IsDigit(ThreeDigits(n)[0]) && IsDigit(ThreeDigits(n)[2]);
    TrimAround(l, left, ThreeDigits(n), right);
  }

  lemma RangeParts(l: Lang, lo: nat, hi: nat, before: string, after: string)
    requires lo < 1000 && hi < 1000 && AllSpace(Ts, before) && AllSpace(Ts, after)
    requires AllSpace(l, before) && AllSpace(l, after)
    ensures var text := ThreeDigits(lo) + before + "-" + after + ThreeDigits(hi);
      && '-' in text
      && Cut(text, '-') == (ThreeDigits(lo) + before, after + ThreeDigits(hi))
      && Split(text, '-') == [ThreeDigits(lo) + before, after + ThreeDigits(hi)]
      && Trim(l, ThreeDigits(lo) + before) == ThreeDigits(lo)
      && Trim(l, after + ThreeDigits(hi)) == ThreeDigits(hi)
  {
    RangeSplits(lo, hi, before, after);
    TrimOfNumber(l, [], lo, before);
    TrimOfNumber(l, after, hi, []);
    assert [] + ThreeDigits(lo) + before == ThreeDigits(lo) + before;
    assert after + ThreeDigits(hi) + [] == after + ThreeDigits(hi);
  }

  lemma Utf8OfAscii(s: string)
    requires forall i :: 0 <= i < |s| ==> s[i] < '\U{0080}'
    ensures Utf8Length(s) == |s|
  {
  }

  lemma {:induction false} Utf8AtLeast(s: string, t: string)
    ensures Utf8Length(s) >= |s| && Utf8Length(s + t) == Utf8Length(s) + Utf8Length(t)
  {
    if s == [] {
      assert s + t == t;
    } else {
      assert (s + t)[1..] == s[1..] + t;
      Utf8AtLeast(s[1..], t);
    }
  }

  lemma AtoiOfDigits(n: nat)
    requires n < 1000
    ensures Atoi(ThreeDigits(n)) == Some(n) && Number(ThreeDigits(n)) == Some(n)
  {
    DigitsAreDigits(n);
  }

  lemma AtoiOfDigit(d: nat)
    requires d < 10
    ensures Atoi([Digit(d)]) == Some(d)
  {
    ValueAppend([], d);
    assert [] + [Digit(d)] == [Digit(d)];
  }

  lemma TsReadsText(i: Item, code: nat)
    requires ItemOk(i)
    ensures TsReadsAs(code, Read(i)) <==> Denotes(i, code)
  {
    match i
    case Exact(n) =>
      AtoiOfDigits(n);
      DigitsAreDigits(n);
    case Class(d, x1, x2) => assert Read(i)[1..] == "xx";
    case Range(lo, hi, before, after) =>
      RangeParts(Ts, lo, hi, before, after);
      AtoiOfDigits(lo);
      AtoiOfDigits(hi);
  }

  lemma TsReadsItem(p: Spaced, code: nat)
    requires SpacedOk(p)
    ensures TsPartMatches(code, Printed(p)) <==> Denotes(p.item, code)
  {
    CoreShape(p.item);
    TrimAround(Ts, p.before, Core(p.item), p.after);
    LowerOfCore(p.item);
    TsReadsText(p.item, code);
  }

  // U+FEFF is white space for JavaScript, but not for Go.
  predicate MarkFree(p: Spaced) {
    BYTE_ORDER_MARK !in p.before && BYTE_ORDER_MARK !in p.after &&
    (p.item.Range? ==> BYTE_ORDER_MARK !in p.item.beforeDash && BYTE_ORDER_MARK !in p.item.afterDash)
  }

  lemma GoReadsClass(d: nat, code: nat)
    requires d < 10
    ensures var part := [Digit(d), 'x', 'x'];
            part[1..] == "xx" && Utf8Length(part) == 3 && Atoi(part[..1]) == Some(d)
  {
    var part := [Digit(d), 'x', 'x'];
    assert part[..1] == [Digit(d)];
    Utf8OfAscii(part);
    AtoiOfDigit(d);
  }

  lemma EndsInDigit(part: string, n: nat)
    requires n < 1000 && |part| >= 3 && part[|part| - 3..] == ThreeDigits(n)
    ensures part[|part| - 2..] != "xx"
  {
    DigitsAreDigits(n);
    assert part[|part| - 2..][1] == part[|part| - 3..][2];
  }

  lemma GoReadsText(i: Item, code: nat)
    requires ItemOk(i)
    requires i.Range? ==> AllSpace(Go, i.beforeDash) && AllSpace(Go, i.afterDash)
    ensures GoReadsAs(code, Read(i)) <==> Denotes(i, code)
  {
    match i
    case Exact(n) =>
      AtoiOfDigits(n);
      DigitsAreDigits(n);
      EndsInDigit(Read(i), n);
    case Class(d, x1, x2) => GoReadsClass(d, code);
    case Range(lo, hi, before, after) =>
      RangeParts(Go, lo, hi, before, after);
      AtoiOfDigits(lo);
      AtoiOfDigits(hi);
      EndsInDigit(Read(i), hi);
  }

  lemma GoReadsItem(p: Spaced, code: nat)
    requires SpacedOk(p) && MarkFree(p)
    ensures GoPartMatches(code, Printed(p)) <==> Denotes(p.item, code)
  {
    CoreShape(p.item);
    assert AllSpace(Go, p.before) && AllSpace(Go, p.after);
    TrimAround(Go, p.before, Core(p.item), p.after);
    LowerOfCore(p.item);
    GoReadsText(p.item, code);
  }

  lemma {:induction false} CutKeeps(s: string, sep: char, c: char)
    requires c in s && sep in s && c != sep
    ensures c in Cut(s, sep).0 || c in Cut(s, sep).1
  {
    if s[0] == sep || s[0] == c {
    } else {
      CutKeeps(s[1..], sep, c);
    }
  }

  lemma AtoiRejectsMark(s: string)
    requires BYTE_ORDER_MARK in s
    ensures Atoi(s).None?
  {
    var digits := if s[0] == '+' || s[0] == '-' then s[1..] else s;
    var i :| 0 <= i < |s| && s[i] == BYTE_ORDER_MARK;
    assert digits[i - (|s| - |digits|)] == BYTE_ORDER_MARK;
  }

  // The mark takes three bytes, so the part is no class.
  lemma MarkedIsLong(part: string)
    requires BYTE_ORDER_MARK in part
    ensures Utf8Length(part) >= |part| + 2
  {
    var i :| 0 <= i < |part| && part[i] == BYTE_ORDER_MARK;
    var left, right := part[..i], [BYTE_ORDER_MARK] + part[i + 1..];
    assert part == left + right;
    Utf8AtLeast(left, right);
    assert right[1..] == part[i + 1..];
    Utf8AtLeast(part[i + 1..], []);
  }

  lemma LowerKeepsMark(s: string)
    requires BYTE_ORDER_MARK in s
    ensures BYTE_ORDER_MARK in Lower(s)
  {
    var i :| 0 <= i < |s| && s[i] == BYTE_ORDER_MARK;
    assert Lower(s)[i] == BYTE_ORDER_MARK;
  }

  lemma GoSkipsMarked(part: string, code: nat)
    requires BYTE_ORDER_MARK in part
    ensures !GoReadsAs(code, part)
  {
    MarkedIsLong(part);
    if '-' in part {
      CutKeeps(part, '-', BYTE_ORDER_MARK);
      var (left, right) := Cut(part, '-');
      if BYTE_ORDER_MARK in left {
        TrimKeepsOthers(Go, left, BYTE_ORDER_MARK);
        AtoiRejectsMark(Trim(Go, left));
      } else {
        TrimKeepsOthers(Go, right, BYTE_ORDER_MARK);
        AtoiRejectsMark(Trim(Go, right));
      }
    } else {
      AtoiRejectsMark(part);
    }
  }

  lemma GoSkipsMarkedPart(raw: string, code: nat)
    requires BYTE_ORDER_MARK in raw
    ensures !GoPartMatches(code, raw)
  {
    TrimKeepsOthers(Go, raw, BYTE_ORDER_MARK);
    LowerKeepsMark(Trim(Go, raw));
    GoSkipsMarked(Lower(Trim(Go, raw)), code);
  }

  lemma GoReadsAnyItem(p: Spaced, code: nat)
    requires SpacedOk(p)
    ensures GoPartMatches(code, Printed(p)) <==> MarkFree(p) && Denotes(p.item, code)
  {
    if MarkFree(p) {
      GoReadsItem(p, code);
    } else {
      MarkIsPrinted(p);
      GoSkipsMarkedPart(Printed(p), code);
    }
  }

  lemma MarkIsPrinted(p: Spaced)
    requires SpacedOk(p) && !MarkFree(p)
    ensures BYTE_ORDER_MARK in Printed(p)
  {
    if p.item.Range? && !(BYTE_ORDER_MARK in p.before || BYTE_ORDER_MARK in p.after) {
      assert BYTE_ORDER_MARK in Core(p.item);
    }
  }

  // --------------------------------------------------------- Whole specs

  lemma SpecIsNotBlank(l: Lang, items: seq<Spaced>)
    requires SpecOk(items)
    ensures Trim(l, SpecText(items)) != ""
  {
    CoreShape(items[0].item);
    var d := Core(items[0].item)[0];
    assert Printed(items[0])[|items[0].before|] == d;
    assert SpecText(items)[|items[0].before|] == d;
    TrimKeepsOthers(l, SpecText(items), d);
  }

  lemma PartsOfSpec(l: Lang, items: seq<Spaced>)
    requires SpecOk(items)
    ensures Trim(l, SpecText(items)) != ""
    ensures SameTrimmed(l, Split(Trim(l, SpecText(items)), ','), Printout(items))
  {
    SpecIsNotBlank(l, items);
    forall i | 0 <= i < |items| ensures ',' !in Printed(items[i]) {
      CoreShape(items[i].item);
    }
    SplitOfJoin(Printout(items), ',');
    SplitOfTrim(l, SpecText(items), ',');
  }

  // The set of codes a spec denotes, and the part of it Go reads.
  predicate Meant(items: seq<Spaced>, code: nat) {
    exists i :: 0 <= i < |items| && Denotes(items[i].item, code)
  }

  predicate MeantWithoutMark(items: seq<Spaced>, code: nat) {
    exists i :: 0 <= i < |items| && MarkFree(items[i]) && Denotes(items[i].item, code)
  }

  /** TypeScript: for every spec the schema accepts, a code matches exactly when
      some item denotes it. */
  lemma TsMatchesMeaning(items: seq<Spaced>, code: nat, expected: int)
    requires SpecOk(items)
    ensures TsStatusMatches(code, Some(SpecText(items)), expected) <==> Meant(items, code)
  {
    PartsOfSpec(Ts, items);
    var parts := Split(Trim(Ts, SpecText(items)), ',');
    forall i | 0 <= i < |items|
      ensures TsPartMatches(code, parts[i]) <==> Denotes(items[i].item, code)
    {
      TsReadsItem(items[i], code);
      assert Trim(Ts, parts[i]) == Trim(Ts, Printout(items)[i]);
    }
  }

  /** Go: a code matches exactly when some item without U+FEFF denotes it; an
      item with that character next to it is skipped. */
  lemma GoMatchesMeaning(items: seq<Spaced>, code: nat, expected: int)
    requires SpecOk(items)
    ensures GoMatches(code, SpecText(items), expected) <==> MeantWithoutMark(items, code)
  {
    PartsOfSpec(Go, items);
    var parts := Split(Trim(Go, SpecText(items)), ',');
    forall i | 0 <= i < |items|
      ensures GoPartMatches(code, parts[i]) <==> MarkFree(items[i]) && Denotes(items[i].item, code)
    {
      GoReadsAnyItem(items[i], code);
      assert Trim(Go, parts[i]) == Trim(Go, Printout(items)[i]);
    }
  }

  /** So on an accepted spec the two implementations agree on every code if and
      only if the items Go skips denote nothing that the others do not. */
  lemma GoAndTsAgreeIff(items: seq<Spaced>, expected: int)
    requires SpecOk(items)
    ensures (forall code: nat :: GoMatches(code, SpecText(items), expected) <==>
                                 TsStatusMatches(code, Some(SpecText(items)), expected)) <==>
            (forall code: nat :: Meant(items, code) ==> MeantWithoutMark(items, code))
  {
    forall code: nat
      ensures GoMatches(code, SpecText(items), expected) <==> MeantWithoutMark(items, code)
      ensures TsStatusMatches(code, Some(SpecText(items)), expected) <==> Meant(items, code)
      ensures MeantWithoutMark(items, code) ==> Meant(items, code)
    {
      GoMatchesMeaning(items, code, expected);
      TsMatchesMeaning(items, code, expected);
    }
  }

  /** In particular with any other white space, and on the empty spec. */
  lemma GoAndTsAgree(items: seq<Spaced>, code: nat, expected: int)
    requires SpecOk(items) && forall i :: 0 <= i < |items| ==> MarkFree(items[i])
    ensures GoMatches(code, SpecText(items), expected) <==>
            TsStatusMatches(code, Some(SpecText(items)), expected)
    ensures GoMatches(code, "", expected) <==> TsStatusMatches(code, None, expected)
  {
    GoMatchesMeaning(items, code, expected);
    TsMatchesMeaning(items, code, expected);
  }

  /** A spec the schema accepts on which they differ. */
  lemma MarkedSpecDisagrees(expected: int)
    ensures var items := [Spaced([BYTE_ORDER_MARK], Exact(200), "")];
            && SpecOk(items)
            && TsStatusMatches(200, Some(SpecText(items)), expected)
            && !GoMatches(200, SpecText(items), expected)
  {
    var items := [Spaced([BYTE_ORDER_MARK], Exact(200), "")];
    assert BYTE_ORDER_MARK == items[0].before[0];
    GoMatchesMeaning(items, 200, expected);
    TsMatchesMeaning(items, 200, expected);
    assert Denotes(items[0].item, 200);
  }
  // ---------------------------------------------------- Blank specs, space

  /** A monitor without a spec, or with a blank one, accepts the one code it expects,
      and 200 if it expects none. */
  lemma BlankSpecFallsBack(code: nat, expected: int, blank: string)
    requires AllSpace(Go, blank) && AllSpace(Ts, blank)
    ensures expected != 0 ==> (GoMatches(code, blank, expected) <==> code == expected)
    ensures expected == 0 ==> (GoMatches(code, blank, expected) <==> code == 200)
    ensures expected != 0 ==> (TsStatusMatches(code, Some(blank), expected) <==> code == expected)
    ensures expected == 0 ==> (TsStatusMatches(code, Some(blank), expected) <==> code == 200)
    ensures TsStatusMatches(code, None, expected) <==> TsStatusMatches(code, Some(blank), expected)
  {
    TrimOfBlank(Go, blank);
    TrimOfBlank(Ts, blank);
  }

  lemma TrimOfBlank(l: Lang, blank: string)
    requires AllSpace(l, blank)
    ensures Trim(l, blank) == ""
  {
    TrimLeftSpace(l, blank, "");
    assert blank + "" == blank;
  }

  /** In ASCII the white space of both languages is tab, the four line separators
      after it, and the blank; beyond it they differ in two characters only. */
  lemma SpaceInBoth(c: char)
    ensures c < '\U{0080}' ==> (Space(Go, c) <==> c == ' ' || '\t' <= c <= '\r')
    ensures c != '\U{0085}' && c != '\U{FEFF}' ==> (Space(Go, c) <==> Space(Ts, c))
    ensures Space(Go, '\U{0085}') && !Space(Ts, '\U{0085}') && Space(Ts, '\U{FEFF}') && !Space(Go, '\U{FEFF}')
  {
  }
}
