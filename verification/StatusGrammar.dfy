/**
 The schema's regular expression for the expected status, as a language of
 strings; and that the strings it accepts are exactly the texts of the item lists
 of StatusSpec.
 */
module StatusGrammar {
  import opened Common
  import opened StatusSpec

  // \d, \s, one literal character, and one letter under the flag i.
  datatype Class = DigitClass | SpaceClass | Literal(c: char) | Letter(lower: char, upper: char)

  datatype Regex =
    | One(cls: Class)
    | Then(first: Regex, second: Regex)
    | Or(left: Regex, right: Regex)
    | Star(body: Regex)

  predicate InClass(cls: Class, c: char) {
    match cls
    case DigitClass => IsDigit(c)
    case SpaceClass => Space(Ts, c)
    case Literal(d) => c == d
    case Letter(lower, upper) => c == lower || c == upper
  }

  // Does the regular expression match the whole of s?
  ghost predicate Accepts(r: Regex, s: string)
    decreases r, |s|
  {
    match r
    case One(cls) => |s| == 1 && InClass(cls, s[0])
    case Then(first, second) => exists i :: 0 <= i <= |s| && Accepts(first, s[..i]) && Accepts(second, s[i..])
    case Or(left, right) => Accepts(left, s) || Accepts(right, s)
    case Star(body) => s == "" || exists i :: 0 < i <= |s| && Accepts(body, s[..i]) && Accepts(r, s[i..])
  }

  // \s*, \d{3}, \dxx, \d{3}\s*-\s*\d{3}
  const SPACES := Star(One(SpaceClass))
  const X := One(Letter('x', 'X'))
  const THREE_DIGITS := Then(One(DigitClass), Then(One(DigitClass), One(DigitClass)))
  const CLASS := Then(One(DigitClass), Then(X, X))
  const DASH := Then(SPACES, Then(One(Literal('-')), SPACES))
  const RANGE := Then(THREE_DIGITS, Then(DASH, THREE_DIGITS))
  const ITEM := Or(THREE_DIGITS, Or(CLASS, RANGE))
  const COMMA := Then(SPACES, Then(One(Literal(',')), SPACES))
  const MORE := Star(Then(COMMA, ITEM))
  const SCHEMA := Then(SPACES, Then(ITEM, Then(MORE, SPACES)))

  // ------------------------------------------------- Reading an expression

  lemma SplitThen(first: Regex, second: Regex, s: string) returns (x: string, y: string)
    requires Accepts(Then(first, second), s)
    ensures s == x + y && Accepts(first, x) && Accepts(second, y)
  {
    var i :| 0 <= i <= |s| && Accepts(first, s[..i]) && Accepts(second, s[i..]);
    x, y := s[..i], s[i..];
  }

  lemma JoinThen(first: Regex, second: Regex, x: string, y: string)
    requires Accepts(first, x) && Accepts(second, y)
    ensures Accepts(Then(first, second), x + y)
  {
    var s := x + y;
    assert s[..|x|] == x && s[|x|..] == y;
  }

  lemma SplitThree(a: Regex, b: Regex, c: Regex, s: string) returns (x: string, y: string, z: string)
    requires Accepts(Then(a, Then(b, c)), s)
    ensures s == x + (y + z) && Accepts(a, x) && Accepts(b, y) && Accepts(c, z)
  {
    var rest;
    x, rest := SplitThen(a, Then(b, c), s);
    y, z := SplitThen(b, c, rest);
  }

  lemma JoinThree(a: Regex, b: Regex, c: Regex, x: string, y: string, z: string)
    requires Accepts(a, x) && Accepts(b, y) && Accepts(c, z)
    ensures Accepts(Then(a, Then(b, c)), x + (y + z))
  {
    JoinThen(b, c, y, z);
    JoinThen(a, Then(b, c), x, y + z);
  }

  lemma SplitStar(body: Regex, s: string) returns (x: string, y: string)
    requires Accepts(Star(body), s) && s != ""
    ensures s == x + y && x != "" && Accepts(body, x) && Accepts(Star(body), y)
  {
    var i :| 0 < i <= |s| && Accepts(body, s[..i]) && Accepts(Star(body), s[i..]);
    x, y := s[..i], s[i..];
  }

  lemma JoinStar(body: Regex, x: string, y: string)
    requires x != "" && Accepts(body, x) && Accepts(Star(body), y)
    ensures Accepts(Star(body), x + y)
  {
    var s := x + y;
    assert s[..|x|] == x && s[|x|..] == y;
  }

  lemma {:induction false} SpacesAreSpaces(s: string)
    ensures Accepts(SPACES, s) <==> AllSpace(Ts, s)
    decreases |s|
  {
    if s == "" {
    } else {
      if Accepts(SPACES, s) {
        var x, y := SplitStar(One(SpaceClass), s);
        SpacesAreSpaces(y);
      }
      SpacesAreSpaces(s[1..]);
      if Space(Ts, s[0]) && Accepts(SPACES, s[1..]) {
        JoinStar(One(SpaceClass), [s[0]], s[1..]);
        assert s == [s[0]] + s[1..];
      }
    }
  }

  // ------------------------------------------------------------------ Items

  lemma DigitOf(c: char) returns (d: nat)
    requires IsDigit(c)
    ensures d < 10 && Digit(d) == c
  {
    d := c as int - '0' as int;
  }

  lemma DigitsOf(d2: nat, d1: nat, d0: nat)
    requires d2 < 10 && d1 < 10 && d0 < 10
    ensures var n := 100 * d2 + 10 * d1 + d0; n < 1000 && n / 100 == d2 && n / 10 % 10 == d1 && n % 10 == d0
  {
    assert (100 * d2 + 10 * d1 + d0) / 10 == 10 * d2 + d1;
  }

  lemma NumberOf(x: string, y: string, z: string) returns (n: nat)
    requires |x| == |y| == |z| == 1 && IsDigit(x[0]) && IsDigit(y[0]) && IsDigit(z[0])
    ensures n < 1000 && ThreeDigits(n) == x + (y + z)
  {
    var d2 := DigitOf(x[0]);
    var d1 := DigitOf(y[0]);
    var d0 := DigitOf(z[0]);
    DigitsOf(d2, d1, d0);
    n := 100 * d2 + 10 * d1 + d0;
    assert x == [Digit(d2)] && y == [Digit(d1)] && z == [Digit(d0)];
  }

  lemma ReadThreeDigits(s: string) returns (n: nat)
    requires Accepts(THREE_DIGITS, s)
    ensures n < 1000 && ThreeDigits(n) == s
  {
    var x, y, z := SplitThree(One(DigitClass), One(DigitClass), One(DigitClass), s);
    n := NumberOf(x, y, z);
  }

  lemma WriteThreeDigits(n: nat)
    requires n < 1000
    ensures Accepts(THREE_DIGITS, ThreeDigits(n))
  {
    var d2, d1, d0 := Digit(n / 100), Digit(n / 10 % 10), Digit(n % 10);
    JoinThree(One(DigitClass), One(DigitClass), One(DigitClass), [d2], [d1], [d0]);
    assert [d2] + ([d1] + [d0]) == [d2, d1, d0];
  }

  lemma FlatThree(x: string, y: string, z: string)
    ensures x + (y + z) == x + y + z
  {
  }

  // White space around one character: the dash of a range, or a comma.
  lemma ReadAround(c: char, s: string) returns (before: string, after: string)
    requires Accepts(Then(SPACES, Then(One(Literal(c)), SPACES)), s)
    ensures s == before + [c] + after && AllSpace(Ts, before) && AllSpace(Ts, after)
  {
    var mid;
    before, mid, after := SplitThree(SPACES, One(Literal(c)), SPACES, s);
    assert mid == [c];
    SpacesAreSpaces(before);
    SpacesAreSpaces(after);
    FlatThree(before, mid, after);
  }

  lemma WriteAround(c: char, before: string, after: string)
    requires AllSpace(Ts, before) && AllSpace(Ts, after)
    ensures Accepts(Then(SPACES, Then(One(Literal(c)), SPACES)), before + [c] + after)
  {
    SpacesAreSpaces(before);
    SpacesAreSpaces(after);
    JoinThree(SPACES, One(Literal(c)), SPACES, before, [c], after);
    FlatThree(before, [c], after);
  }

  lemma ReadClass(s: string) returns (item: Item)
    requires Accepts(CLASS, s)
    ensures ItemOk(item) && Core(item) == s
  {
    var x, y, z := SplitThree(One(DigitClass), X, X, s);
    var d := DigitOf(x[0]);
    item := Item.Class(d, y[0], z[0]);
  }

  lemma FlatRange(lo: string, before: string, after: string, hi: string)
    ensures lo + ((before + ['-'] + after) + hi) == lo + before + "-" + after + hi
  {
  }

  lemma ReadRange(s: string) returns (item: Item)
    requires Accepts(RANGE, s)
    ensures ItemOk(item) && Core(item) == s
  {
    var x, y, z := SplitThree(THREE_DIGITS, DASH, THREE_DIGITS, s);
    var lo := ReadThreeDigits(x);
    var before, after := ReadAround('-', y);
    var hi := ReadThreeDigits(z);
    item := Range(lo, hi, before, after);
    FlatRange(x, before, after, z);
  }

  lemma ReadItem(s: string) returns (item: Item)
    requires Accepts(ITEM, s)
    ensures ItemOk(item) && Core(item) == s
  {
    if Accepts(THREE_DIGITS, s) {
      var n := ReadThreeDigits(s);
      item := Exact(n);
    } else if Accepts(CLASS, s) {
      item := ReadClass(s);
    } else {
      assert Accepts(Or(CLASS, RANGE), s);
      item := ReadRange(s);
    }
  }

  lemma WriteClass(item: Item)
    requires ItemOk(item) && item.Class?
    ensures Accepts(CLASS, Core(item))
  {
    var d := Digit(item.class_);
    JoinThree(One(DigitClass), X, X, [d], [item.x1], [item.x2]);
    assert [d] + ([item.x1] + [item.x2]) == Core(item);
  }

  lemma WriteRange(item: Item)
    requires ItemOk(item) && item.Range?
    ensures Accepts(RANGE, Core(item))
  {
    var lo, hi, dash := ThreeDigits(item.lo), ThreeDigits(item.hi), item.beforeDash + ['-'] + item.afterDash;
    WriteThreeDigits(item.lo);
    WriteThreeDigits(item.hi);
    WriteAround('-', item.beforeDash, item.afterDash);
    JoinThree(THREE_DIGITS, DASH, THREE_DIGITS, lo, dash, hi);
    FlatRange(lo, item.beforeDash, item.afterDash, hi);
  }

  lemma WriteItem(item: Item)
    requires ItemOk(item)
    ensures Accepts(ITEM, Core(item))
  {
    match item
    case Exact(n) => WriteThreeDigits(n);
    case Class(_, _, _) =>
      WriteClass(item);
      assert Accepts(Or(CLASS, RANGE), Core(item));
    case Range(_, _, _, _) =>
      WriteRange(item);
      assert Accepts(Or(CLASS, RANGE), Core(item));
  }

  // ------------------------------------------------------------ Whole specs

  lemma TextOfOne(p: Spaced)
    requires SpacedOk(p)
    ensures SpecOk([p]) && SpecText([p]) == Printed(p)
  {
    assert Printout([p]) == [Printed(p)];
  }

  lemma JoinMore(first: string, rest: seq<string>)
    requires rest != []
    ensures Join([first] + rest, ',') == first + [','] + Join(rest, ',')
  {
    assert ([first] + rest)[1..] == rest;
  }

  lemma TextOfMore(first: Spaced, rest: seq<Spaced>)
    requires SpacedOk(first) && SpecOk(rest)
    ensures SpecOk([first] + rest) && SpecText([first] + rest) == Printed(first) + "," + SpecText(rest)
  {
    assert Printout([first] + rest) == [Printed(first)] + Printout(rest);
    JoinMore(Printed(first), Printout(rest));
  }

  // One round of the starred group.
  lemma ReadMore(tail: string) returns (left: string, right: string, item: Item, rest: string)
    requires Accepts(MORE, tail) && tail != ""
    ensures AllSpace(Ts, left) && AllSpace(Ts, right) && ItemOk(item) && Accepts(MORE, rest) && |rest| < |tail|
    ensures tail == left + "," + right + Core(item) + rest
  {
    var piece;
    piece, rest := SplitStar(Then(COMMA, ITEM), tail);
    var comma, core := SplitThen(COMMA, ITEM, piece);
    left, right := ReadAround(',', comma);
    item := ReadItem(core);
  }

  lemma WriteMore(left: string, right: string, item: Item, rest: string)
    requires AllSpace(Ts, left) && AllSpace(Ts, right) && ItemOk(item) && Accepts(MORE, rest)
    ensures Accepts(MORE, left + "," + right + Core(item) + rest)
  {
    var comma := left + [','] + right;
    WriteAround(',', left, right);
    WriteItem(item);
    JoinThen(COMMA, ITEM, comma, Core(item));
    JoinStar(Then(COMMA, ITEM), comma + Core(item), rest);
  }

  lemma Regrouped(a: string, b: string, c: string, d: string, e: string, f: string, g: string)
    ensures (a + b + c) + "," + (d + e + f + g) == a + b + (c + "," + d + e + f) + g
  {
  }

  // An item, what the starred group adds to it, and the white space at the end.
  lemma {:induction false} ReadTail(before: string, item: Item, tail: string, end: string) returns (items: seq<Spaced>)
    requires AllSpace(Ts, before) && ItemOk(item) && AllSpace(Ts, end) && Accepts(MORE, tail)
    ensures SpecOk(items) && SpecText(items) == before + Core(item) + tail + end
    decreases |tail|
  {
    if tail == "" {
      items := [Spaced(before, item, end)];
      TextOfOne(items[0]);
      assert before + Core(item) + "" == before + Core(item);
    } else {
      var left, right, next, rest := ReadMore(tail);
      var others := ReadTail(right, next, rest, end);
      items := [Spaced(before, item, left)] + others;
      TextOfMore(Spaced(before, item, left), others);
      Regrouped(before, Core(item), left, right, Core(next), rest, end);
    }
  }

  lemma {:induction false} WriteTail(items: seq<Spaced>) returns (tail: string, end: string)
    requires SpecOk(items)
    ensures Accepts(MORE, tail) && AllSpace(Ts, end)
    ensures SpecText(items) == items[0].before + Core(items[0].item) + tail + end
    decreases |items|
  {
    var p := items[0];
    if |items| == 1 {
      tail, end := "", p.after;
      assert items == [p];
      TextOfOne(p);
      assert p.before + Core(p.item) + "" == p.before + Core(p.item);
    } else {
      var q := items[1];
      var rest;
      rest, end := WriteTail(items[1..]);
      assert items == [p] + items[1..];
      TextOfMore(p, items[1..]);
      tail := p.after + "," + q.before + Core(q.item) + rest;
      WriteMore(p.after, q.before, q.item, rest);
      Regrouped(p.before, Core(p.item), p.after, q.before, Core(q.item), rest, end);
    }
  }

  lemma SplitFour(a: Regex, b: Regex, c: Regex, d: Regex, s: string)
    returns (w: string, x: string, y: string, z: string)
    requires Accepts(Then(a, Then(b, Then(c, d))), s)
    ensures Accepts(a, w) && Accepts(b, x) && Accepts(c, y) && Accepts(d, z)
    ensures s == w + (x + (y + z))
  {
    var rest, more;
    w, rest := SplitThen(a, Then(b, Then(c, d)), s);
    x, more := SplitThen(b, Then(c, d), rest);
    y, z := SplitThen(c, d, more);
  }

  lemma JoinFour(a: Regex, b: Regex, c: Regex, d: Regex, w: string, x: string, y: string, z: string)
    requires Accepts(a, w) && Accepts(b, x) && Accepts(c, y) && Accepts(d, z)
    ensures Accepts(Then(a, Then(b, Then(c, d))), w + (x + (y + z)))
  {
    JoinThen(c, d, y, z);
    JoinThen(b, Then(c, d), x, y + z);
    JoinThen(a, Then(b, Then(c, d)), w, x + (y + z));
  }

  lemma ReadSpec(s: string) returns (items: seq<Spaced>)
    requires Accepts(SCHEMA, s)
    ensures SpecOk(items) && s == SpecText(items)
  {
    var before, core, tail, end := SplitFour(SPACES, ITEM, MORE, SPACES, s);
    SpacesAreSpaces(before);
    SpacesAreSpaces(end);
    var item := ReadItem(core);
    items := ReadTail(before, item, tail, end);
    Flat(before, core, tail, end);
  }

  lemma Flat(w: string, x: string, y: string, z: string)
    ensures w + (x + (y + z)) == w + x + y + z
  {
  }

  lemma WriteSpec(items: seq<Spaced>)
    requires SpecOk(items)
    ensures Accepts(SCHEMA, SpecText(items))
  {
    var before, core := items[0].before, Core(items[0].item);
    var tail, end := WriteTail(items);
    Flat(before, core, tail, end);
    SpacesAreSpaces(before);
    SpacesAreSpaces(end);
    WriteItem(items[0].item);
    JoinFour(SPACES, ITEM, MORE, SPACES, before, core, tail, end);
  }

  /** The schema accepts a string if and only if it is the text of some list of
      codes, classes and ranges. */
  lemma SchemaAcceptsSpecTexts(s: string)
    ensures Accepts(SCHEMA, s) <==> exists items :: SpecOk(items) && s == SpecText(items)
  {
    if Accepts(SCHEMA, s) {
      var items := ReadSpec(s);
    } else if items :| SpecOk(items) && s == SpecText(items) {
      WriteSpec(items);
    }
  }

  /** So the two matchers agree on every string the schema accepts, but for those
      with U+FEFF in them. */
  lemma AcceptedSpecsAgree(s: string, code: nat, expected: int)
    requires Accepts(SCHEMA, s) && BYTE_ORDER_MARK !in s
    ensures GoMatches(code, s, expected) <==> TsStatusMatches(code, Some(s), expected)
  {
    var items := ReadSpec(s);
    forall i | 0 <= i < |items| ensures MarkFree(items[i]) {
      if !MarkFree(items[i]) {
        MarkIsPrinted(items[i]);
        PartIsJoined(Printout(items), i, BYTE_ORDER_MARK);
      }
    }
    GoAndTsAgree(items, code, expected);
  }

  lemma {:induction false} PartIsJoined(parts: seq<string>, i: nat, c: char)
    requires i < |parts| && c in parts[i]
    ensures c in Join(parts, ',')
  {
    if |parts| == 1 {
    } else {
      assert parts == [parts[0]] + parts[1..];
      JoinMore(parts[0], parts[1..]);
      if i > 0 {
        PartIsJoined(parts[1..], i - 1, c);
      }
    }
  }
}
