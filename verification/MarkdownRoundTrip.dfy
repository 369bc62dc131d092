/** Importing what was exported: entry by entry, pack by pack, and the whole text. */
module MarkdownRoundTrip {
  import opened Prelude
  import opened Model
  import opened Text
  import opened Markdown
  import opened MarkdownLaws
  import opened MarkdownHeadings

  // ---------- one entry ----------

  // Whether cutting and reading the entry behind its marker yields the entry again, and leaves the tail.
  ghost predicate CutsBack(c: Codec, e: EntryRecord, tail: string) {
    var r := CutEntry(c, Behind(c.compact(Header(e)), Render(c, e.value), tail));
    r.Ok? && ReadEntry(c, r.value.metadata, r.value.body) == Ok(DurableOf(e)) && r.value.rest == "\n\n" + tail
  }

  // Whether what is cut and read behind the marker is at least another entry, or an error.
  ghost predicate CutsAmiss(c: Codec, e: EntryRecord, tail: string) {
    var r := CutEntry(c, Behind(c.compact(Header(e)), Render(c, e.value), tail));
    r.Err? || ReadEntry(c, r.value.metadata, r.value.body) != Ok(DurableOf(e))
  }

  lemma HeaderParsed(c: Codec, e: EntryRecord, tail: string)
    requires Lawful(c) && EntryStorable(e) && !Contains(c.compact(Header(e)), COMMENT_END)
    ensures var h, r := c.compact(Header(e)), Render(c, e.value);
            var rest := "\n" + Lines(r) + ENTRY_END + "\n\n" + tail;
            var m := Find(rest, ENTRY_END);
            CutEntry(c, Behind(h, r, tail)) ==
              if m.None? then Err(Validation) else Ok(Cut(Header(e), Trim(rest[..m.value]), rest[m.value + |ENTRY_END|..]))
  {
    hide Lines, Behind;
    var h, r := c.compact(Header(e)), Render(c, e.value);
    HeaderStorable(e);
    HeaderCut(c, h, r, tail);
    TrimPadded(" ", h, " ");
  }

  lemma GoodEntry(c: Codec, e: EntryRecord, tail: string)
    requires Lawful(c) && EntryStorable(e) && Survives(c, e)
    ensures CutsBack(c, e, tail)
  {
    hide Lines, Behind, CutEntry, ReadEntry, Lawful, Header, Render, ReadValue, Normalize;
    var r := Render(c, e.value);
    HeaderParsed(c, e, tail);
    BodyCut(r, tail);
    LinesTrimmed(r);
    ValueReadBack(c, e.value);
    HeaderRead(c, e, r);
    assert Normalize(e.scope) == Ok(e.scope);
  }

  lemma BadScope(c: Codec, e: EntryRecord, body: string)
    requires !Normalized(e.scope)
    ensures ReadEntry(c, Header(e), body) != Ok(DurableOf(e))
  {
    hide ReadEntry, Header, ReadValue;
    HeaderRead(c, e, body);
    NormalizeSettles(e.scope);
  }

  lemma BadValue(c: Codec, e: EntryRecord, body: string)
    requires ReadValue(c, FormatName(e.value), body) != Ok(e.value)
    ensures ReadEntry(c, Header(e), body) != Ok(DurableOf(e))
  {
    hide ReadEntry, Header, ReadValue;
    HeaderRead(c, e, body);
  }

  lemma BadBody(c: Codec, e: EntryRecord, tail: string)
    requires Lawful(c) && EntryStorable(e)
    requires !Tight(Render(c, e.value)) || Contains(Render(c, e.value), ENTRY_END)
    ensures var rest := "\n" + Lines(Render(c, e.value)) + ENTRY_END + "\n\n" + tail;
            Find(rest, ENTRY_END).Some? ==> ReadValue(c, FormatName(e.value), Trim(rest[..Find(rest, ENTRY_END).value])) != Ok(e.value)
  {
    hide Lines, ReadValue, Lawful, Render;
    var r := Render(c, e.value);
    var rest := "\n" + Lines(r) + ENTRY_END + "\n\n" + tail;
    if !Tight(r) {
      if Find(rest, ENTRY_END).Some? { NotTight(c, e.value, rest[..Find(rest, ENTRY_END).value]); }
    } else {
      BodyCutShort(r, tail);
      var m: nat :| HasAt(r, ENTRY_END, m) && Find(rest, ENTRY_END) == Some(m + 1) && rest[..m + 1] == "\n" + r[..m];
      TrimAfterSpace('\n', r[..m]);
      CutShort(c, e.value, m);
    }
  }

  lemma BadEntry(c: Codec, e: EntryRecord, tail: string)
    requires Lawful(c) && EntryStorable(e) && !Survives(c, e)
    ensures CutsAmiss(c, e, tail)
  {
    hide Lines, Behind, CutEntry, ReadEntry, Lawful, Header, Render, ReadValue, Normalized;
    var r := Render(c, e.value);
    HeaderStorable(e);
    if Contains(c.compact(Header(e)), COMMENT_END) {
      HeaderBroken(c, e, r, tail);
    } else {
      HeaderParsed(c, e, tail);
      var cut := CutEntry(c, Behind(c.compact(Header(e)), r, tail));
      if cut.Ok? {
        if !Normalized(e.scope) {
          BadScope(c, e, cut.value.body);
        } else {
          BadBody(c, e, tail);
          BadValue(c, e, cut.value.body);
        }
      }
    }
  }

  // ---------- from the begin marker on ----------

  // A stretch of text between entries: no begin marker stands in it or starts in it.
  predicate Quiet(pre: string) {
    !Contains(pre, ENTRY_BEGIN) && EndsOutside(pre, ENTRY_BEGIN)
  }

  lemma EntryIsMarked(c: Codec, e: EntryRecord, tail: string)
    ensures EntryText(c, e) + tail == ENTRY_BEGIN + Behind(c.compact(Header(e)), Render(c, e.value), tail)
  {
    hide Lines, Render, Header;
    var h, l := c.compact(Header(e)), Lines(Render(c, e.value));
    var body := "\n" + l + ENTRY_END + "\n\n";
    assert EntryText(c, e) == ENTRY_BEGIN + (" " + h + " " + COMMENT_END) + body;
    assert Behind(h, Render(c, e.value), tail) == (" " + h + " " + COMMENT_END) + body + tail;
  }

  lemma MarkedRead(c: Codec, pre: string, text: string)
    requires Quiet(pre)
    ensures ParseEntries(c, pre + ENTRY_BEGIN + text) == ReadBehind(c, text)
  {
    hide CutEntry, ReadEntry;
    FindAfter(pre, ENTRY_BEGIN, text);
    assert (pre + ENTRY_BEGIN + text)[|pre| + |ENTRY_BEGIN|..] == text;
  }

  /** An exported entry is read back, and the tail after it, exactly if it survives. */
  lemma EntryReadBack(c: Codec, pre: string, e: EntryRecord, tail: string, more: seq<Durable>)
    requires Lawful(c) && EntryStorable(e) && Quiet(pre)
    ensures ParseEntries(c, pre + (EntryText(c, e) + tail)) == Ok([DurableOf(e)] + more) <==>
            Survives(c, e) && ParseEntries(c, "\n\n" + tail) == Ok(more)
  {
    hide CutEntry, ReadEntry, Lawful, Survives, EntryText, Behind, ParseEntries, Quiet, EntryStorable, Render, Header;
    var text := Behind(c.compact(Header(e)), Render(c, e.value), tail);
    EntryIsMarked(c, e, tail);
    assert pre + (ENTRY_BEGIN + text) == pre + ENTRY_BEGIN + text;
    MarkedRead(c, pre, text);
    var d, rest := DurableOf(e), ParseEntries(c, "\n\n" + tail);
    hide DurableOf;
    if Survives(c, e) {
      GoodEntry(c, e, tail);
      assert ReadBehind(c, text) == Prepend([d], rest);
      if rest.Ok? { SameTail(d, rest.value, more); }
    } else {
      BadEntry(c, e, tail);
      FirstDiffers(c, text, d, more);
    }
  }

  lemma FirstDiffers(c: Codec, text: string, d: Durable, more: seq<Durable>)
    requires var cut := CutEntry(c, text); cut.Err? || ReadEntry(c, cut.value.metadata, cut.value.body) != Ok(d)
    ensures ReadBehind(c, text) != Ok([d] + more)
  {
    hide CutEntry, ReadEntry, ParseEntries;
    var r := ReadBehind(c, text);
    if r.Ok? {
      var x := ReadEntry(c, CutEntry(c, text).value.metadata, CutEntry(c, text).value.body).value;
      assert r.value[0] == x;
      assert ([d] + more)[0] == d;
    }
  }

  lemma SameTail(e: Durable, a: seq<Durable>, b: seq<Durable>)
    ensures [e] + a == [e] + b <==> a == b
  {
    assert ([e] + a)[1..] == a && ([e] + b)[1..] == b;
  }

  // ---------- the entries of a pack, and all packs ----------

  ghost predicate AllSurvive(c: Codec, es: seq<EntryRecord>) {
    forall i | 0 <= i < |es| :: Survives(c, es[i])
  }

  predicate AllStorable(es: seq<EntryRecord>) {
    forall i | 0 <= i < |es| :: EntryStorable(es[i])
  }

  lemma {:induction false} EntriesReadBack(c: Codec, pre: string, es: seq<EntryRecord>, tail: string, more: seq<Durable>)
    requires Lawful(c) && AllStorable(es) && Quiet(pre)
    ensures ParseEntries(c, pre + (EntriesText(c, es) + tail)) == Ok(Durables(es) + more) <==>
            AllSurvive(c, es) && ParseEntries(c, (if es == [] then pre else "\n\n") + tail) == Ok(more)
    decreases |es|
  {
    hide Lawful, EntryText, ParseEntries, Survives, EntryStorable;
    if es == [] {
      assert EntriesText(c, es) + tail == tail && Durables(es) + more == more;
    } else {
      var rest := EntriesText(c, es[1..]) + tail;
      assert EntriesText(c, es) + tail == EntryText(c, es[0]) + rest;
      assert Durables(es) + more == [DurableOf(es[0])] + (Durables(es[1..]) + more);
      EntryReadBack(c, pre, es[0], rest, Durables(es[1..]) + more);
      LineBreaksQuiet();
      EntriesReadBack(c, "\n\n", es[1..], tail, more);
      assert AllSurvive(c, es) <==> Survives(c, es[0]) && AllSurvive(c, es[1..]) by { AllSurviveSplit(c, es); }
    }
  }

  lemma AllSurviveSplit(c: Codec, es: seq<EntryRecord>)
    requires es != []
    ensures AllSurvive(c, es) <==> Survives(c, es[0]) && AllSurvive(c, es[1..])
  {
    hide Survives;
    if Survives(c, es[0]) && AllSurvive(c, es[1..]) {
      forall i | 0 <= i < |es| ensures Survives(c, es[i]) {
        if i > 0 { assert Survives(c, es[1..][i - 1]); }
      }
    }
  }

  lemma LineBreaksQuiet()
    ensures Quiet("\n\n")
  {
    assert '\n' !in ENTRY_BEGIN;
    NoMarkerIn("\n\n", ENTRY_BEGIN);
  }

  lemma QuietConcat(a: string, b: string)
    requires Quiet(a) && Quiet(b)
    ensures Quiet(a + b)
  {
    ContainsConcat(a, b, ENTRY_BEGIN);
    if b == "" { assert a + b == a; }
  }

  // The entries that an export writes, in the order in which it writes them.
  function Exported(packs: seq<PackRecord>, es: seq<EntryRecord>): seq<EntryRecord> {
    if packs == [] then [] else EntriesOf(packs[0], es) + Exported(packs[1..], es)
  }

  predicate QuietHeadings(packs: seq<PackRecord>) {
    forall i | 0 <= i < |packs| :: !Contains(Heading(packs[i]), ENTRY_BEGIN)
  }

  lemma HeadingQuiet(p: PackRecord)
    requires !Contains(Heading(p), ENTRY_BEGIN)
    ensures Quiet(Heading(p))
  {
    var h := Heading(p);
    assert h[|h| - 1] == '\n' && '\n' !in ENTRY_BEGIN;
  }

  lemma AllSurviveConcat(c: Codec, a: seq<EntryRecord>, b: seq<EntryRecord>)
    ensures AllSurvive(c, a + b) <==> AllSurvive(c, a) && AllSurvive(c, b)
  {
    hide Survives;
    if AllSurvive(c, a + b) {
      forall i | 0 <= i < |a| ensures Survives(c, a[i]) { assert Survives(c, (a + b)[i]); }
      forall i | 0 <= i < |b| ensures Survives(c, b[i]) { assert Survives(c, (a + b)[|a| + i]); }
    }
  }

  lemma {:induction false} EntriesOfStorable(p: PackRecord, es: seq<EntryRecord>)
    requires AllStorable(es)
    ensures AllStorable(EntriesOf(p, es))
  {
    if es != [] {
      assert AllStorable(es[1..]) by { assert forall i | 0 <= i < |es[1..]| :: es[1..][i] == es[i + 1]; }
      EntriesOfStorable(p, es[1..]);
    }
  }

  lemma {:induction false} PacksReadBack(c: Codec, pre: string, packs: seq<PackRecord>, es: seq<EntryRecord>)
    requires Lawful(c) && AllStorable(es) && Quiet(pre) && QuietHeadings(packs)
    ensures ParseEntries(c, pre + PacksText(c, packs, es)) == Ok(Durables(Exported(packs, es))) <==> AllSurvive(c, Exported(packs, es))
    decreases |packs|
  {
    hide Lawful, EntriesText, Survives, EntryStorable, EntriesOf, Heading, Quiet;
    if packs == [] {
      assert pre + PacksText(c, packs, es) == pre;
      NothingRead(c, pre);
    } else {
      hide ParseEntries;
      var p, mine, rest := packs[0], EntriesOf(packs[0], es), PacksText(c, packs[1..], es);
      HeadingQuiet(p);
      QuietConcat(pre, Heading(p));
      assert pre + PacksText(c, packs, es) == (pre + Heading(p)) + (EntriesText(c, mine) + rest);
      EntriesOfStorable(p, es);
      EntriesReadBack(c, pre + Heading(p), mine, rest, Durables(Exported(packs[1..], es)));
      LineBreaksQuiet();
      PacksReadBack(c, if mine == [] then pre + Heading(p) else "\n\n", packs[1..], es);
      DurablesConcat(mine, Exported(packs[1..], es));
      AllSurviveConcat(c, mine, Exported(packs[1..], es));
    }
  }

  lemma NothingRead(c: Codec, pre: string)
    requires Quiet(pre)
    ensures ParseEntries(c, pre) == Ok([])
  {
  }

  // ---------- and what it means that they are read back ----------

  // The text of an export, piece by piece.
  function Pieces(packs: seq<PackRecord>, es: seq<EntryRecord>): seq<Piece> {
    if packs == [] then [] else [Head(Heading(packs[0]))] + ItemPieces(EntriesOf(packs[0], es)) + Pieces(packs[1..], es)
  }

  lemma {:induction false} PiecesMakeExport(c: Codec, packs: seq<PackRecord>, es: seq<EntryRecord>)
    ensures TextOf(c, Pieces(packs, es)) == PacksText(c, packs, es) && ItemsOf(Pieces(packs, es)) == Exported(packs, es)
    decreases |packs|
  {
    if packs != [] {
      var head, mine, more := Heading(packs[0]), EntriesOf(packs[0], es), Pieces(packs[1..], es);
      PiecesMakeExport(c, packs[1..], es);
      assert Pieces(packs, es) == [Head(head)] + ItemPieces(mine) + more;
      assert PacksText(c, packs, es) == head + EntriesText(c, mine) + PacksText(c, packs[1..], es);
      assert Exported(packs, es) == mine + Exported(packs[1..], es);
      hide *;
      PiecesConcat(c, [Head(head)] + ItemPieces(mine), more);
      PiecesConcat(c, [Head(head)], ItemPieces(mine));
      ItemsAre(c, mine);
      OneHead(c, head);
      assert [] + mine == mine;
    }
  }

  lemma {:induction false} PiecesQuiet(packs: seq<PackRecord>, es: seq<EntryRecord>)
    ensures LinesEnded(Pieces(packs, es)) && (QuietHeads(Pieces(packs, es)) ==> QuietHeadings(packs))
    decreases |packs|
  {
    hide Heading, Contains, EntriesOf, EndsLine;
    if packs != [] {
      var head, items, more := Head(Heading(packs[0])), ItemPieces(EntriesOf(packs[0], es)), Pieces(packs[1..], es);
      PiecesQuiet(packs[1..], es);
      HeadingEnded(packs[0]);
      ItemsHeadless(EntriesOf(packs[0], es));
      var ps := Pieces(packs, es);
      assert ps == [head] + items + more;
      assert forall i | 0 <= i < |more| :: ps[1 + |items| + i] == more[i];
      if QuietHeads(ps) {
        assert ps[0] == head;
        forall i | 0 <= i < |packs| ensures !Contains(Heading(packs[i]), ENTRY_BEGIN) {
          if i > 0 { assert packs[i] == packs[1..][i - 1]; }
        }
      }
    }
  }

  lemma HeadingEnded(p: PackRecord)
    ensures EndsLine(Heading(p))
  {
    var h := Heading(p);
    assert h[|h| - 1] == '\n';
  }

  /** An import that yields the exported entries met no begin marker in any heading. */
  lemma ReadBackMeansQuiet(c: Codec, packs: seq<PackRecord>, es: seq<EntryRecord>)
    requires Lawful(c) && ParseEntries(c, ExportText(c, packs, es)) == Ok(Durables(Exported(packs, es)))
    ensures QuietHeadings(packs)
  {
    PiecesMakeExport(c, packs, es);
    PiecesQuiet(packs, es);
    hide Lawful, ParseEntries, Durables, Pieces, PacksText, QuietHeads, QuietHeadings, LinesEnded, Exported;
    assert EndsLine(TITLE) by { assert TITLE[|TITLE| - 1] == '\n'; }
    HeadingsQuiet(c, TITLE, Pieces(packs, es));
  }

  /**
   Printer and parser undo each other: importing an exported bundle yields exactly the exported entries, in
   order, with all their durable fields, if and only if there is an entry at all, no heading or description
   holds a begin marker, and each entry survives: its scope is normalised, its header text has no end of
   comment, and its rendered value is tight and free of the end marker.
   */
  lemma MarkdownRoundTrip(c: Codec, packs: seq<PackRecord>, es: seq<EntryRecord>)
    requires Lawful(c) && AllStorable(es)
    ensures var ds := Durables(Exported(packs, es));
            ImportText(c, ExportText(c, packs, es)) == Ok(Imported(PacksOf(ds), ds)) <==>
            AllSurvive(c, Exported(packs, es)) && Exported(packs, es) != [] && QuietHeadings(packs)
  {
    hide Lawful, AllSurvive, AllStorable, PacksText, Quiet, PacksOf, Exported, QuietHeadings, ParseEntries;
    TitleQuiet();
    if QuietHeadings(packs) {
      PacksReadBack(c, TITLE, packs, es);
    } else if ParseEntries(c, ExportText(c, packs, es)) == Ok(Durables(Exported(packs, es))) {
      ReadBackMeansQuiet(c, packs, es);
    }
  }

  lemma TitleQuiet()
    ensures Quiet(TITLE)
  {
    assert '<' !in TITLE && ENTRY_BEGIN[0] == '<';
    forall at | 0 <= at <= |TITLE| ensures !HasAt(TITLE, ENTRY_BEGIN, at) {
      assert at < |TITLE| ==> TITLE[at] in TITLE;
      assert at + |ENTRY_BEGIN| <= |TITLE| ==> TITLE[at..at + |ENTRY_BEGIN|][0] == TITLE[at];
    }
    assert TITLE[|TITLE| - 1] == '\n' && '\n' !in ENTRY_BEGIN;
  }

  // ---------- the headings do matter ----------

  lemma BrokenAtOnce(c: Codec, text: string)
    requires Lawful(c) && |text| > 2 && text[0] == text[1] == '\n' && text[2] == '<'
    ensures CutEntry(c, text).Err?
  {
    var end := Find(text, COMMENT_END);
    if end.Some? {
      var k := end.value;
      assert text[k..k + |COMMENT_END|][0] == text[k] == '-';
      var t := text[..k];
      assert t == ['\n'] + (['\n'] + t[2..]);
      TrimAfterSpace('\n', ['\n'] + t[2..]);
      TrimAfterSpace('\n', t[2..]);
      TrimIsPrefix(t[2..]);
      assert AngleAt(Trim(t), 0) by { assert Trim(t)[0] == t[2..][0] == '<'; }
    }
  }

  /**
   A description that holds the begin marker makes the export unreadable, however sound its entries are: the
   parser takes the heading for an entry.
   */
  lemma MarkedDescriptionBreaks(c: Codec, p: PackRecord, e: EntryRecord)
    requires Lawful(c) && Quiet(Heading(p.(description := None)))
    requires p.description == Some(ENTRY_BEGIN) && e.scope == p.scope && e.packName == p.name
    ensures ImportText(c, ExportText(c, [p], [e])).Err?
  {
    hide Lawful, EntryText, CutEntry, ReadEntry, Quiet;
    var plain, tail := Heading(p.(description := None)), EntryText(c, e);
    assert EntriesOf(p, [e]) == [e] by { assert EntriesOf(p, [e][1..]) == []; }
    assert EntriesText(c, [e]) == tail by { assert EntriesText(c, [e][1..]) == "" && tail + "" == tail; }
    assert PacksText(c, [p], [e]) == Heading(p) + tail by { assert PacksText(c, [p][1..], [e]) == ""; }
    HeadingSplit(p);
    var text := "\n\n" + tail;
    assert ExportText(c, [p], [e]) == (TITLE + plain) + ENTRY_BEGIN + text;
    TitleQuiet();
    QuietConcat(TITLE, plain);
    MarkedRead(c, TITLE + plain, text);
    assert text[2] == '<' by { EntryIsMarked(c, e, ""); assert tail + "" == tail; assert tail[0] == ENTRY_BEGIN[0]; }
    BrokenAtOnce(c, text);
  }

  lemma HeadingSplit(p: PackRecord)
    requires p.description == Some(ENTRY_BEGIN)
    ensures Heading(p) == Heading(p.(description := None)) + ENTRY_BEGIN + "\n\n"
  {
    var line := "## Pack `" + p.name + "` (" + KindName(p.scope.kind) + ":" + p.scope.id + ")\n\n";
    assert Heading(p.(description := None)) == line + "" == line;
    assert Heading(p) == line + (ENTRY_BEGIN + "\n\n");
  }
}
