/** The compact text of a JSON value, as `serde_json::to_string` prints it: different values print differently. */
module JsonText {
  import opened JsonTree

  function Hex(n: nat): char
    requires n < 16
  {
    "0123456789abcdef"[n]
  }

  function Digits(n: nat): string {
    (if n < 10 then "" else Digits(n / 10)) + [Hex(n % 10)]
  }

  function EscapeChar(c: char): string {
    match c
    case '"' => "\\\""
    case '\\' => "\\\\"
    case '\n' => "\\n"
    case '\t' => "\\t"
    case '\r' => "\\r"
    case _ =>
      var n := c as int;
      if n == 8 then "\\b" else if n == 12 then "\\f"
      else if n < 32 then "\\u00" + [Hex(n / 16), Hex(n % 16)]
      else [c]
  }

  function Escape(s: string): string {
    if s == "" then "" else EscapeChar(s[0]) + Escape(s[1..])
  }

  function Print(j: Json): string {
    match j
    case Null => "null"
    case Bool(b) => if b then "true" else "false"
    case Number(n) => if n < 0 then "-" + Digits(-n) else Digits(n)
    case Str(s) => "\"" + (Escape(s) + "\"")
    case Array(items) => if items == [] then "[]" else "[" + (Print(items[0]) + ItemsTail(items[1..]))
    case Object(fields) => if fields == [] then "{}" else "{" + (PrintField(fields[0]) + FieldsTail(fields[1..]))
  }

  function ItemsTail(items: seq<Json>): string {
    if items == [] then "]" else "," + (Print(items[0]) + ItemsTail(items[1..]))
  }

  function PrintField(f: Field): string {
    "\"" + (Escape(f.name) + ("\":" + Print(f.value)))
  }

  function FieldsTail(fields: seq<Field>): string {
    if fields == [] then "}" else "," + (PrintField(fields[0]) + FieldsTail(fields[1..]))
  }

  // ---------- a text is read in one way only ----------

  predicate IsDigit(c: char) { '0' <= c <= '9' }

  // A number ends where no digit follows; every other value ends by itself.
  predicate Ends(j: Json, rest: string) {
    j.Number? ==> rest == "" || !IsDigit(rest[0])
  }

  lemma {:induction false} DigitsAreDigits(n: nat)
    ensures Digits(n) != "" && forall i | 0 <= i < |Digits(n)| :: IsDigit(Digits(n)[i])
  {
    if n >= 10 { DigitsAreDigits(n / 10); }
  }

  // The number that decimal digits stand for.
  function Value(s: string): int {
    if s == "" then 0 else 10 * Value(s[..|s| - 1]) + (s[|s| - 1] as int - '0' as int)
  }

  /** Digits are the decimal notation of a number, without zeros in front. */
  lemma {:induction false} DigitsMean(n: nat)
    ensures Value(Digits(n)) == n && Digits(n) != "" && (n > 0 ==> Digits(n)[0] != '0')
  {
    var last := Hex(n % 10);
    assert last as int - '0' as int == n % 10 by { DigitValue(n % 10); }
    if n < 10 {
      assert Digits(n) == [last] && [last][..0] == "";
    } else {
      DigitsMean(n / 10);
      assert Digits(n)[..|Digits(n)| - 1] == Digits(n / 10);
    }
  }

  lemma DigitValue(d: nat)
    requires d < 10
    ensures Hex(d) as int - '0' as int == d
  {
  }

  lemma {:induction false} DigitsTell(n: nat, m: nat)
    requires Digits(n) == Digits(m)
    ensures n == m
  {
    hide Hex, Digits;
    DigitsShape(n);
    DigitsShape(m);
    DigitsAreDigits(n / 10);
    DigitsAreDigits(m / 10);
    HexTells(n % 10, m % 10);
    if n >= 10 && m >= 10 { DigitsTell(n / 10, m / 10); }
  }

  lemma DigitsShape(n: nat)
    ensures var d := Digits(n);
            d != "" && d[|d| - 1] == Hex(n % 10) && d[..|d| - 1] == if n < 10 then "" else Digits(n / 10)
  {
    hide Hex;
  }

  lemma HexTells(n: nat, m: nat)
    requires n < 16 && m < 16 && Hex(n) == Hex(m)
    ensures n == m
  {
  }

  // A number does not reach into what follows another one.
  lemma NotLonger(d: string, x: string, e: string, y: string)
    requires d + x == e + y && (x == "" || !IsDigit(x[0]))
    requires forall i | 0 <= i < |e| :: IsDigit(e[i])
    ensures |e| <= |d|
  {
    var s := d + x;
    assert forall i | 0 <= i < |e| :: s[i] == e[i];
    assert x != "" ==> s[|d|] == x[0];
  }

  lemma DigitsSplit(n: nat, x: string, m: nat, y: string)
    requires Digits(n) + x == Digits(m) + y
    requires (x == "" || !IsDigit(x[0])) && (y == "" || !IsDigit(y[0]))
    ensures n == m && x == y
  {
    var d, e := Digits(n), Digits(m);
    DigitsAreDigits(n);
    DigitsAreDigits(m);
    hide Digits, IsDigit;
    NotLonger(d, x, e, y);
    NotLonger(e, y, d, x);
    assert d == (d + x)[..|d|] && e == (e + y)[..|d|];
    Behind(d, x, y);
    DigitsTell(n, m);
  }

  lemma Behind(p: string, x: string, y: string)
    requires p + x == p + y
    ensures x == y
  {
    assert (p + x)[|p|..] == x && (p + y)[|p|..] == y;
  }

  lemma Regroup(p: string, a: string, x: string)
    ensures (p + a) + x == p + (a + x)
  {
  }

  lemma EscapeCharTells(c: char, d: char)
    requires |EscapeChar(c)| <= |EscapeChar(d)| && forall i | 0 <= i < |EscapeChar(c)| :: EscapeChar(c)[i] == EscapeChar(d)[i]
    ensures c == d
  {
    hide Hex;
    var a, b := EscapeChar(c), EscapeChar(d);
    assert a[0] == b[0];
    if |a| > 1 {
      assert a[1] == b[1];
      if |a| > 2 {
        assert a[4] == b[4] && a[5] == b[5];
        HexTells(c as int / 16, d as int / 16);
        HexTells(c as int % 16, d as int % 16);
      }
    }
  }

  lemma EscapeCharSplit(c: char, x: string, d: char, y: string)
    requires EscapeChar(c) + x == EscapeChar(d) + y
    ensures c == d && x == y
  {
    var s, a, b := EscapeChar(c) + x, EscapeChar(c), EscapeChar(d);
    hide EscapeChar;
    assert forall i | 0 <= i < |a| :: s[i] == a[i];
    assert forall i | 0 <= i < |b| :: s[i] == b[i];
    if |a| <= |b| { EscapeCharTells(c, d); } else { EscapeCharTells(d, c); }
    Behind(a, x, y);
  }

  lemma {:induction false} EscapeSplit(s: string, x: string, t: string, y: string)
    requires Escape(s) + ("\"" + x) == Escape(t) + ("\"" + y)
    ensures s == t && x == y
  {
    hide EscapeChar;
    var q, r := "\"" + x, "\"" + y;
    EscapeTextStarts(s, q);
    EscapeTextStarts(t, r);
    hide Escape;
    if s == "" && t == "" {
      Behind("\"", x, y);
    } else if s != "" && t != "" {
      EscapeCharSplit(s[0], Escape(s[1..]) + q, t[0], Escape(t[1..]) + r);
      EscapeSplit(s[1..], x, t[1..], y);
      assert s == [s[0]] + s[1..] && t == [t[0]] + t[1..];
    }
  }

  lemma EscapeTextStarts(s: string, q: string)
    ensures if s == "" then Escape(s) + q == q
            else Escape(s) + q == EscapeChar(s[0]) + (Escape(s[1..]) + q) && (Escape(s) + q)[0] != '"'
  {
    if s == "" {
      assert "" + q == q;
    } else {
      assert EscapeChar(s[0])[0] != '"';
      hide EscapeChar;
      Regroup(EscapeChar(s[0]), Escape(s[1..]), q);
    }
  }

  // What kind of value a text starts with shows in its first character.
  function Start(j: Json): char {
    match j
    case Null => 'n'
    case Bool(b) => if b then 't' else 'f'
    case Number(n) => if n < 0 then '-' else Digits(n)[0]
    case Str(_) => '"'
    case Array(_) => '['
    case Object(_) => '{'
  }

  lemma PrintStarts(j: Json)
    ensures Print(j) != "" && Print(j)[0] == Start(j) && (j.Number? && j.n >= 0 <==> IsDigit(Start(j)))
  {
    if j.Number? && j.n >= 0 { DigitsAreDigits(j.n); }
  }

  // Values whose texts start alike are of one kind.
  lemma SameStart(a: Json, x: string, b: Json, y: string)
    requires Print(a) + x == Print(b) + y
    ensures Start(a) == Start(b)
  {
    hide Print, Start;
    PrintStarts(a);
    PrintStarts(b);
    assert (Print(a) + x)[0] == Start(a) && (Print(b) + y)[0] == Start(b);
  }

  lemma SameKind(a: Json, b: Json)
    requires Start(a) == Start(b)
    ensures a.Null? == b.Null? && a.Bool? == b.Bool? && a.Number? == b.Number? && a.Str? == b.Str? && a.Array? == b.Array?
    ensures a.Bool? ==> a == b
    ensures a.Number? ==> (a.n < 0 <==> b.n < 0)
  {
    hide Digits;
    PrintStarts(a);
    PrintStarts(b);
  }

  lemma NumberSplit(n: int, x: string, m: int, y: string)
    requires Print(Number(n)) + x == Print(Number(m)) + y && Ends(Number(n), x) && Ends(Number(m), y)
    ensures n == m && x == y
  {
    hide Digits;
    SameStart(Number(n), x, Number(m), y);
    SameKind(Number(n), Number(m));
    if n < 0 {
      Regroup("-", Digits(-n), x);
      Regroup("-", Digits(-m), y);
      Behind("-", Digits(-n) + x, Digits(-m) + y);
      DigitsSplit(-n, x, -m, y);
    } else {
      DigitsSplit(n, x, m, y);
    }
  }

  // A quoted text, and what follows it.
  lemma QuotedSplit(s: string, u: string, t: string, v: string)
    requires "\"" + (Escape(s) + ("\"" + u)) == "\"" + (Escape(t) + ("\"" + v))
    ensures s == t && u == v
  {
    hide Escape;
    Behind("\"", Escape(s) + ("\"" + u), Escape(t) + ("\"" + v));
    EscapeSplit(s, u, t, v);
  }

  lemma QuotedText(s: string, x: string)
    ensures Print(Str(s)) + x == "\"" + (Escape(s) + ("\"" + x))
  {
    hide Escape;
    Regroup("\"", Escape(s) + "\"", x);
    Regroup(Escape(s), "\"", x);
  }

  /**
   Compact JSON text is read in one way only: a text that starts with the print of two values starts with one
   value, and the same text follows.
   */
  lemma {:induction false} PrintSplit(a: Json, x: string, b: Json, y: string)
    requires Print(a) + x == Print(b) + y && Ends(a, x) && Ends(b, y)
    ensures a == b && x == y
    decreases a, 2
  {
    hide Print, Start;
    SameStart(a, x, b, y);
    SameKind(a, b);
    match a
    case Null => Behind(Print(a), x, y);
    case Bool(_) => Behind(Print(a), x, y);
    case Number(n) => NumberSplit(n, x, b.n, y);
    case Str(s) =>
      QuotedText(s, x);
      QuotedText(b.s, y);
      QuotedSplit(s, x, b.s, y);
    case Array(items) => ArraySplit(items, x, b.items, y);
    case Object(fields) => ObjectSplit(fields, x, b.fields, y);
  }

  // An array behind its bracket.
  function ItemsText(items: seq<Json>): string {
    if items == [] then "]" else Print(items[0]) + ItemsTail(items[1..])
  }

  lemma ArrayText(items: seq<Json>, x: string)
    ensures Print(Array(items)) + x == "[" + (ItemsText(items) + x)
  {
    assert items == [] ==> "[]" == "[" + "]";
    Regroup("[", ItemsText(items), x);
  }

  lemma TailText(items: seq<Json>, x: string)
    ensures ItemsTail(items) + x == if items == [] then "]" + x else "," + (ItemsText(items) + x)
  {
    if items != [] { Regroup(",", ItemsText(items), x); }
  }

  lemma ItemsTextStarts(items: seq<Json>, x: string)
    ensures if items == [] then ItemsText(items) + x == "]" + x
            else ItemsText(items) + x == Print(items[0]) + (ItemsTail(items[1..]) + x) && (ItemsText(items) + x)[0] != ']'
  {
    hide Print, ItemsTail;
    if items != [] {
      PrintStarts(items[0]);
      Regroup(Print(items[0]), ItemsTail(items[1..]), x);
    }
  }

  lemma ArraySplit(a: seq<Json>, x: string, b: seq<Json>, y: string)
    requires Print(Array(a)) + x == Print(Array(b)) + y
    ensures a == b && x == y
    decreases a, 1
  {
    hide Print, ItemsText;
    ArrayText(a, x);
    ArrayText(b, y);
    Behind("[", ItemsText(a) + x, ItemsText(b) + y);
    ItemsSplit(a, x, b, y);
  }

  lemma {:induction false} ItemsSplit(a: seq<Json>, x: string, b: seq<Json>, y: string)
    requires ItemsText(a) + x == ItemsText(b) + y
    ensures a == b && x == y
    decreases a, 0
  {
    hide Print, ItemsTail, ItemsText;
    ItemsTextStarts(a, x);
    ItemsTextStarts(b, y);
    if a == [] || b == [] {
      Behind("]", x, y);
    } else {
      TailText(a[1..], x);
      TailText(b[1..], y);
      PrintSplit(a[0], ItemsTail(a[1..]) + x, b[0], ItemsTail(b[1..]) + y);
      if a[1..] == [] {
        Behind("]", x, y);
      } else {
        Behind(",", ItemsText(a[1..]) + x, ItemsText(b[1..]) + y);
        ItemsSplit(a[1..], x, b[1..], y);
      }
      assert a == [a[0]] + a[1..] && b == [b[0]] + b[1..];
    }
  }

  lemma FieldText(f: Field, x: string)
    ensures PrintField(f) + x == "\"" + (Escape(f.name) + ("\"" + (":" + (Print(f.value) + x))))
  {
    hide Print, Escape;
    var p, e := Print(f.value), Escape(f.name);
    assert "\":" + p == "\"" + (":" + p);
    Regroup("\"", e + ("\"" + (":" + p)), x);
    Regroup(e, "\"" + (":" + p), x);
    Regroup("\"", ":" + p, x);
    Regroup(":", p, x);
  }

  lemma FieldSplit(f: Field, x: string, g: Field, y: string)
    requires PrintField(f) + x == PrintField(g) + y && Ends(f.value, x) && Ends(g.value, y)
    ensures f == g && x == y
    decreases f, 0
  {
    hide Print, PrintField, Escape;
    FieldText(f, x);
    FieldText(g, y);
    QuotedSplit(f.name, ":" + (Print(f.value) + x), g.name, ":" + (Print(g.value) + y));
    Behind(":", Print(f.value) + x, Print(g.value) + y);
    PrintSplit(f.value, x, g.value, y);
  }

  // An object behind its brace.
  function FieldsText(fields: seq<Field>): string {
    if fields == [] then "}" else PrintField(fields[0]) + FieldsTail(fields[1..])
  }

  lemma ObjectText(fields: seq<Field>, x: string)
    ensures Print(Object(fields)) + x == "{" + (FieldsText(fields) + x)
  {
    assert fields == [] ==> "{}" == "{" + "}";
    Regroup("{", FieldsText(fields), x);
  }

  lemma FieldsTailText(fields: seq<Field>, x: string)
    ensures FieldsTail(fields) + x == if fields == [] then "}" + x else "," + (FieldsText(fields) + x)
  {
    if fields != [] { Regroup(",", FieldsText(fields), x); }
  }

  lemma FieldsTextStarts(fields: seq<Field>, x: string)
    ensures if fields == [] then FieldsText(fields) + x == "}" + x
            else FieldsText(fields) + x == PrintField(fields[0]) + (FieldsTail(fields[1..]) + x) && (FieldsText(fields) + x)[0] == '"'
  {
    hide Escape, Print, FieldsTail;
    if fields != [] { Regroup(PrintField(fields[0]), FieldsTail(fields[1..]), x); }
  }

  lemma ObjectSplit(a: seq<Field>, x: string, b: seq<Field>, y: string)
    requires Print(Object(a)) + x == Print(Object(b)) + y
    ensures a == b && x == y
    decreases a, 1
  {
    hide Print, FieldsText;
    ObjectText(a, x);
    ObjectText(b, y);
    Behind("{", FieldsText(a) + x, FieldsText(b) + y);
    FieldsSplit(a, x, b, y);
  }

  lemma {:induction false} FieldsSplit(a: seq<Field>, x: string, b: seq<Field>, y: string)
    requires FieldsText(a) + x == FieldsText(b) + y
    ensures a == b && x == y
    decreases a, 0
  {
    hide PrintField, FieldsTail, FieldsText;
    FieldsTextStarts(a, x);
    FieldsTextStarts(b, y);
    if a == [] || b == [] {
      Behind("}", x, y);
    } else {
      FieldsTailText(a[1..], x);
      FieldsTailText(b[1..], y);
      FieldSplit(a[0], FieldsTail(a[1..]) + x, b[0], FieldsTail(b[1..]) + y);
      if a[1..] == [] {
        Behind("}", x, y);
      } else {
        Behind(",", FieldsText(a[1..]) + x, FieldsText(b[1..]) + y);
        FieldsSplit(a[1..], x, b[1..], y);
      }
      assert a == [a[0]] + a[1..] && b == [b[0]] + b[1..];
    }
  }

  /** Different values have different texts. */
  lemma PrintTells(a: Json, b: Json)
    ensures Print(a) == Print(b) <==> a == b
  {
    hide Print;
    if Print(a) == Print(b) {
      assert Print(a) + "" == Print(b) + "";
      PrintSplit(a, "", b, "");
    }
  }

  lemma EscapeSample()
    ensures Escape("x\"\n") == "x\\\"\\n" && Escape("a") == "a" && Escape("b") == "b"
  {
    assert "x\"\n"[1..] == "\"\n" && "\"\n"[1..] == "\n" && "\n"[1..] == "" && "a"[1..] == "" && "b"[1..] == "";
  }

  lemma TailStep(j: Json, rest: seq<Json>)
    ensures ItemsTail([]) == "]" && ItemsTail([j] + rest) == "," + (Print(j) + ItemsTail(rest))
    ensures Print(Array([j] + rest)) == "[" + (Print(j) + ItemsTail(rest))
  {
    assert ([j] + rest)[1..] == rest;
  }

  lemma ScalarSamples()
    ensures Print(Number(-7)) == "-7" && Print(Str("x\"\n")) == "\"x\\\"\\n\"" && Print(Bool(true)) == "true" && Print(Null) == "null"
  {
    hide Escape;
    EscapeSample();
    assert Digits(7) == "7";
  }

  lemma ArraySample()
    ensures Print(Array([Number(-7), Str("x\"\n"), Bool(true), Null])) == "[-7,\"x\\\"\\n\",true,null]"
  {
    hide Print, ItemsTail;
    ScalarSamples();
    TailStep(Null, []);
    TailStep(Bool(true), [Null]);
    TailStep(Str("x\"\n"), [Bool(true), Null]);
    TailStep(Number(-7), [Str("x\"\n"), Bool(true), Null]);
    assert [Null] + [] == [Null] && [Bool(true)] + [Null] == [Bool(true), Null];
    assert [Str("x\"\n")] + [Bool(true), Null] == [Str("x\"\n"), Bool(true), Null];
    assert [Number(-7)] + [Str("x\"\n"), Bool(true), Null] == [Number(-7), Str("x\"\n"), Bool(true), Null];
  }

  /** For instance. */
  lemma PrintSample()
    ensures Print(Object([Field("a", Array([Number(-7), Str("x\"\n"), Bool(true), Null])), Field("b", Object([]))]))
            == "{\"a\":" + "[-7,\"x\\\"\\n\",true,null]" + ",\"b\":{}}"
  {
    ArraySample();
    EscapeSample();
    hide Escape, ItemsTail;
    var first, last := Field("a", Array([Number(-7), Str("x\"\n"), Bool(true), Null])), Field("b", Object([]));
    assert [first, last][1..] == [last] && [last][1..] == [];
    assert FieldsTail([last]) == ",\"b\":{}}";
  }
}
