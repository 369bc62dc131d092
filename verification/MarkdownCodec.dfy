/** The laws asked of the JSON library can be met: the compact printer, with a parser that inverts it, meets them. */
module MarkdownCodec {
  import opened Prelude
  import opened JsonTree
  import opened JsonText
  import opened Text
  import opened Markdown
  import opened MarkdownLaws

  ghost predicate Prints(j: Json, t: string) {
    Storable(j) && Print(j) == t
  }

  // Reads what the printer prints, and nothing else.
  ghost function ParseBack(t: string): Result<Json> {
    if exists j :: Prints(j, t) then
      var j :| Prints(j, t);
      Ok(j)
    else Err(Malformed)
  }

  ghost function CompactCodec(): Codec {
    Codec(Print, Print, t => ParseBack(t))
  }

  // ---------- what characters the printer uses ----------

  // No control characters, and so no line breaks.
  predicate OneLine(s: string) {
    forall i | 0 <= i < |s| :: s[i] as int >= 32
  }

  lemma {:induction false} DigitsOneLine(n: nat)
    ensures OneLine(Digits(n)) && !IsSpace(Digits(n)[|Digits(n)| - 1])
  {
    DigitsAreDigits(n);
  }

  lemma {:induction false} EscapeOneLine(s: string)
    ensures OneLine(Escape(s))
  {
    if s != "" {
      EscapeOneLine(s[1..]);
      CharOneLine(s[0]);
      hide EscapeChar;
    }
  }

  lemma CharOneLine(c: char)
    ensures OneLine(EscapeChar(c))
  {
  }

  predicate WellEnded(s: string) {
    OneLine(s) && s != "" && !IsSpace(s[|s| - 1])
  }

  // A text on one line, and behind it one that ends well.
  lemma Joined(a: string, b: string)
    requires OneLine(a) && WellEnded(b)
    ensures WellEnded(a + b)
  {
    hide IsSpace;
    var s := a + b;
    assert s[|s| - 1] == b[|b| - 1];
  }

  lemma Constants()
    ensures WellEnded("null") && WellEnded("true") && WellEnded("false") && WellEnded("[]") && WellEnded("{}") && WellEnded("\"")
    ensures OneLine("\"")
  {
  }

  lemma NumberEnds(n: int)
    ensures WellEnded(Print(Number(n)))
  {
    hide IsSpace, Digits;
    DigitsOneLine(if n < 0 then -n else n);
    DigitsAreDigits(if n < 0 then -n else n);
    if n < 0 { Joined("-", Digits(-n)); }
  }

  lemma ArrayEnds(items: seq<Json>)
    requires items != [] && WellEnded(Print(items[0])) && WellEnded(ItemsTail(items[1..]))
    ensures WellEnded(Print(Array(items)))
  {
    hide IsSpace;
    Joined(Print(items[0]), ItemsTail(items[1..]));
    Joined("[", Print(items[0]) + ItemsTail(items[1..]));
  }

  lemma ObjectEnds(fields: seq<Field>)
    requires fields != [] && WellEnded(PrintField(fields[0])) && WellEnded(FieldsTail(fields[1..]))
    ensures WellEnded(Print(Object(fields)))
  {
    hide IsSpace, PrintField;
    Joined(PrintField(fields[0]), FieldsTail(fields[1..]));
    Joined("{", PrintField(fields[0]) + FieldsTail(fields[1..]));
  }

  lemma {:induction false} PrintWellEnded(j: Json)
    ensures WellEnded(Print(j))
    decreases j, 1
  {
    hide WellEnded, OneLine, IsSpace;
    Constants();
    match j
    case Number(n) =>
      NumberEnds(n);
    case Str(s) =>
      EscapeOneLine(s);
      Joined(Escape(s), "\"");
      Joined("\"", Escape(s) + "\"");
    case Array(items) =>
      if items != [] {
        PrintWellEnded(items[0]);
        ItemsWellEnded(items[1..]);
        ArrayEnds(items);
      }
    case Object(fields) =>
      if fields != [] {
        FieldWellEnded(fields[0]);
        FieldsWellEnded(fields[1..]);
        ObjectEnds(fields);
      }
    case _ =>
  }

  lemma {:induction false} ItemsWellEnded(items: seq<Json>)
    ensures WellEnded(ItemsTail(items))
    decreases items, 0
  {
    if items != [] {
      PrintWellEnded(items[0]);
      ItemsWellEnded(items[1..]);
      hide Print;
      Joined(Print(items[0]), ItemsTail(items[1..]));
      Joined(",", Print(items[0]) + ItemsTail(items[1..]));
    }
  }

  lemma {:induction false} FieldWellEnded(f: Field)
    ensures WellEnded(PrintField(f))
    decreases f, 0
  {
    EscapeOneLine(f.name);
    PrintWellEnded(f.value);
    hide Print, Escape;
    Joined("\":", Print(f.value));
    Joined(Escape(f.name), "\":" + Print(f.value));
    Joined("\"", Escape(f.name) + ("\":" + Print(f.value)));
  }

  lemma {:induction false} FieldsWellEnded(fields: seq<Field>)
    ensures WellEnded(FieldsTail(fields))
    decreases fields, 0
  {
    if fields != [] {
      FieldWellEnded(fields[0]);
      FieldsWellEnded(fields[1..]);
      hide PrintField;
      Joined(PrintField(fields[0]), FieldsTail(fields[1..]));
      Joined(",", PrintField(fields[0]) + FieldsTail(fields[1..]));
    }
  }

  lemma PrintIsTight(j: Json)
    ensures Tight(Print(j)) && Print(j) != "" && Print(j)[0] != '`' && !Angled(Print(j))
  {
    hide Print;
    PrintWellEnded(j);
    PrintStarts(j);
    StartIsPlain(j);
    forall i | 0 <= i < |Print(j)| ensures !AngleAt(Print(j), i) {
      if i > 0 { assert Print(j)[i - 1] as int >= 32; }
    }
  }

  lemma StartIsPlain(j: Json)
    ensures Start(j) != '`' && Start(j) != '<' && !IsSpace(Start(j))
  {
    if j.Number? { DigitsAreDigits(if j.n < 0 then -j.n else j.n); }
  }

  // ---------- the laws ----------

  lemma ParsesBack(j: Json)
    requires Storable(j)
    ensures ParseBack(Print(j)) == Ok(j)
  {
    hide Print;
    assert Prints(j, Print(j));
    var k :| Prints(k, Print(j)) && ParseBack(Print(j)) == Ok(k);
    PrintTells(j, k);
  }

  // Where something is read, it is printed text.
  lemma ReadIsPrinted(t: string)
    requires ParseBack(t).Ok?
    ensures Prints(ParseBack(t).value, t)
  {
  }

  // The beginning of an object's text is the text of no value.
  lemma BrokenUnread(j: Json, t: string)
    requires j.Object? && BreaksOff(t, Print(j))
    ensures ParseBack(Trim(t)).Err?
  {
    hide Print, Trim;
    if ParseBack(Trim(t)).Ok? {
      var k := ParseBack(Trim(t)).value;
      ReadIsPrinted(Trim(t));
      PrintStarts(k);
      PrintStarts(j);
      assert t != "" by { TrimIsTight(t); }
      assert t[0] == '{';
      TrimIsPrefix(t);
      var x := Print(j)[|Trim(t)|..];
      assert Print(k) + x == Print(j) + "";
      SameStart(k, x, j, "");
      SameKind(k, j);
      PrintSplit(k, x, j, "");
    }
  }

  /** The laws are not empty: this codec obeys them. */
  lemma CompactCodecIsLawful()
    ensures Lawful(CompactCodec())
  {
    hide Print, Trim, Storable, ParseBack, BreaksOff, Tight, Angled;
    var c := CompactCodec();
    forall j | Storable(j) ensures c.parse(c.compact(j)) == Ok(j) && Tight(c.compact(j)) {
      ParsesBack(j);
      PrintIsTight(j);
    }
    forall t | c.parse(t).Ok? ensures t != "" && t[0] != '`' && !Angled(t) {
      ReadIsPrinted(t);
      PrintIsTight(ParseBack(t).value);
    }
    forall j, t | Storable(j) && j.Object? && BreaksOff(t, c.compact(j)) ensures c.parse(Trim(t)).Err? {
      BrokenUnread(j, t);
    }
    forall j, t | Storable(j) && BreaksOff(t, c.pretty(j)) ensures c.parse(Trim(t)) != Ok(j) {
      BrokenIsOther(j, t);
    }
  }

  lemma BrokenIsOther(j: Json, t: string)
    requires BreaksOff(t, Print(j))
    ensures ParseBack(Trim(t)) != Ok(j)
  {
    hide Print, Trim;
    TrimIsTight(t);
    if ParseBack(Trim(t)).Ok? { ReadIsPrinted(Trim(t)); }
  }
}
