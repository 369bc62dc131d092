/**
 Why a begin marker outside the entries cannot go unnoticed: every exported entry ends at least one read, so a
 read that starts early is one too many, or swallows an entry.
 */
module MarkdownHeadings {
  import opened Prelude
  import opened JsonTree
  import opened Model
  import opened Text
  import opened Markdown
  import opened MarkdownLaws

  // ---------- an export as headings and entries ----------

  datatype Piece = Head(text: string) | Item(entry: EntryRecord)

  function PieceText(c: Codec, p: Piece): string {
    match p case Head(text) => text case Item(e) => EntryText(c, e)
  }

  function TextOf(c: Codec, ps: seq<Piece>): string {
    if ps == [] then "" else PieceText(c, ps[0]) + TextOf(c, ps[1..])
  }

  function ItemsOf(ps: seq<Piece>): seq<EntryRecord> {
    if ps == [] then [] else (if ps[0].Item? then [ps[0].entry] else []) + ItemsOf(ps[1..])
  }

  function ItemPieces(es: seq<EntryRecord>): seq<Piece> {
    if es == [] then [] else [Item(es[0])] + ItemPieces(es[1..])
  }

  function Durables(es: seq<EntryRecord>): seq<Durable> {
    if es == [] then [] else [DurableOf(es[0])] + Durables(es[1..])
  }

  predicate EndsLine(s: string) { s == "" || s[|s| - 1] == '\n' }

  predicate LinesEnded(ps: seq<Piece>) {
    forall i | 0 <= i < |ps| && ps[i].Head? :: EndsLine(ps[i].text)
  }

  predicate QuietHeads(ps: seq<Piece>) {
    forall i | 0 <= i < |ps| && ps[i].Head? :: !Contains(ps[i].text, ENTRY_BEGIN)
  }

  lemma {:induction false} TextsConcat(c: Codec, a: seq<Piece>, b: seq<Piece>)
    ensures TextOf(c, a + b) == TextOf(c, a) + TextOf(c, b)
  {
    hide PieceText;
    if a == [] {
      assert a + b == b;
    } else {
      assert (a + b)[1..] == a[1..] + b && (a + b)[0] == a[0];
      TextsConcat(c, a[1..], b);
      Assoc(PieceText(c, a[0]), TextOf(c, a[1..]), TextOf(c, b));
    }
  }

  lemma {:induction false} ItemsConcat(a: seq<Piece>, b: seq<Piece>)
    ensures ItemsOf(a + b) == ItemsOf(a) + ItemsOf(b)
  {
    if a == [] {
      assert a + b == b;
    } else {
      assert (a + b)[1..] == a[1..] + b && (a + b)[0] == a[0];
      ItemsConcat(a[1..], b);
    }
  }

  lemma PiecesConcat(c: Codec, a: seq<Piece>, b: seq<Piece>)
    ensures TextOf(c, a + b) == TextOf(c, a) + TextOf(c, b) && ItemsOf(a + b) == ItemsOf(a) + ItemsOf(b)
  {
    hide TextOf, ItemsOf;
    TextsConcat(c, a, b);
    ItemsConcat(a, b);
  }

  lemma {:induction false} ItemsAre(c: Codec, es: seq<EntryRecord>)
    ensures TextOf(c, ItemPieces(es)) == EntriesText(c, es) && ItemsOf(ItemPieces(es)) == es
  {
    hide EntryText;
    if es != [] {
      ItemsAre(c, es[1..]);
      assert ItemPieces(es)[1..] == ItemPieces(es[1..]);
      assert es == [es[0]] + es[1..];
    }
  }

  lemma {:induction false} ItemsHeadless(es: seq<EntryRecord>)
    ensures forall i | 0 <= i < |ItemPieces(es)| :: ItemPieces(es)[i].Item?
  {
    if es != [] {
      ItemsHeadless(es[1..]);
      assert forall i | 0 < i < |ItemPieces(es)| :: ItemPieces(es)[i] == ItemPieces(es[1..])[i - 1];
    }
  }

  lemma OneHead(c: Codec, text: string)
    ensures TextOf(c, [Head(text)]) == text && ItemsOf([Head(text)]) == []
  {
    assert [Head(text)][1..] == [];
    assert text + "" == text;
  }

  lemma {:induction false} DurablesConcat(a: seq<EntryRecord>, b: seq<EntryRecord>)
    ensures Durables(a + b) == Durables(a) + Durables(b) && |Durables(a)| == |a|
  {
    if a == [] {
      assert a + b == b;
    } else {
      assert (a + b)[1..] == a[1..] + b;
      DurablesConcat(a[1..], b);
    }
  }

  // ---------- where things stand ----------

  function HeaderAt(c: Codec, u: string, e: EntryRecord): nat { |u| + |ENTRY_BEGIN| + 1 + |c.compact(Header(e))| + 1 }

  function BodyAt(c: Codec, u: string, e: EntryRecord): nat { HeaderAt(c, u, e) + |COMMENT_END| + 1 }

  function EndAt(c: Codec, u: string, e: EntryRecord): nat { BodyAt(c, u, e) + |Lines(Render(c, e.value))| }

  lemma Layout(c: Codec, u: string, e: EntryRecord, tail: string)
    ensures var text := u + (EntryText(c, e) + tail); var r := Lines(Render(c, e.value));
            HasAt(text, ENTRY_BEGIN, |u|) && HasAt(text, COMMENT_END, HeaderAt(c, u, e)) && HasAt(text, ENTRY_END, EndAt(c, u, e)) &&
            text[BodyAt(c, u, e) - 1] == '\n' && text[BodyAt(c, u, e)..EndAt(c, u, e)] == r &&
            |u| < BodyAt(c, u, e) && |u| + |EntryText(c, e)| == EndAt(c, u, e) + |ENTRY_END| + 2
  {
    hide Lines, Render, Header, HasAt;
    Placed(u, ENTRY_BEGIN, " ", c.compact(Header(e)), " ", COMMENT_END, "\n", Lines(Render(c, e.value)), ENTRY_END, "\n\n", tail);
    SoPlaced(u + (EntryText(c, e) + tail), BodyAt(c, u, e), Lines(Render(c, e.value)));
  }

  lemma SoPlaced(text: string, at: nat, r: string)
    requires at > 0 && HasAt(text, "\n", at - 1) && HasAt(text, r, at)
    ensures text[at - 1] == '\n' && text[at..at + |r|] == r
  {
    assert text[at - 1..at][0] == text[at - 1];
  }

  lemma Placed(u: string, a: string, b: string, h: string, b': string, k: string, n: string, r: string, z: string, n': string, tail: string)
    ensures var text := u + ((a + b + h + b' + k + n + r + z + n') + tail);
            var at := |u| + |a| + |b| + |h| + |b'|; var body := at + |k| + |n|;
            HasAt(text, a, |u|) && HasAt(text, k, at) && HasAt(text, n, at + |k|) && HasAt(text, r, body) && HasAt(text, z, body + |r|)
  {
    hide HasAt;
    var t6 := r + (z + (n' + tail));
    var t3 := h + (b' + (k + (n + t6)));
    var text := u + (a + (b + t3));
    RightNested(a, b, h, b', k, n, r, z, n', tail);
    StandsAt(u, a, b + t3, text);
    Assoc(u, a, b + t3);
    Assoc(u + a, b, t3);
    Assoc(u + a + b, h, b' + (k + (n + t6)));
    Assoc(u + a + b + h, b', k + (n + t6));
    StandsAt(u + a + b + h + b', k, n + t6, text);
    Assoc(u + a + b + h + b', k, n + t6);
    StandsAt(u + a + b + h + b' + k, n, t6, text);
    Assoc(u + a + b + h + b' + k, n, t6);
    StandsAt(u + a + b + h + b' + k + n, r, z + (n' + tail), text);
    Assoc(u + a + b + h + b' + k + n, r, z + (n' + tail));
    StandsAt(u + a + b + h + b' + k + n + r, z, n' + tail, text);
  }

  lemma RightNested(a: string, b: string, h: string, b': string, k: string, n: string, r: string, z: string, n': string, tail: string)
    ensures a + b + h + b' + k + n + r + z + n' + tail == a + (b + (h + (b' + (k + (n + (r + (z + (n' + tail))))))))
  {
    Assoc(a + b + h + b' + k + n + r + z, n', tail);
    Assoc(a + b + h + b' + k + n + r, z, n' + tail);
    Assoc(a + b + h + b' + k + n, r, z + (n' + tail));
    Assoc(a + b + h + b' + k, n, r + (z + (n' + tail)));
    Assoc(a + b + h + b', k, n + (r + (z + (n' + tail))));
    Assoc(a + b + h, b', k + (n + (r + (z + (n' + tail)))));
    Assoc(a + b, h, b' + (k + (n + (r + (z + (n' + tail))))));
    Assoc(a, b, h + (b' + (k + (n + (r + (z + (n' + tail)))))));
  }

  lemma StandsAt(a: string, b: string, d: string, text: string)
    requires text == a + (b + d)
    ensures HasAt(text, b, |a|)
  {
    assert text[|a|..|a| + |b|] == b;
  }

  // ---------- cutting, told by positions in the whole text ----------

  predicate FirstAt(text: string, pattern: string, from: nat, at: nat) {
    from <= at && HasAt(text, pattern, at) && forall i | from <= i < at :: !HasAt(text, pattern, i)
  }

  // What is cut out of the text from a place on: the metadata end at `k`, the body ends at `m`.
  predicate CutsAt(c: Codec, text: string, from: nat, k: nat, m: nat, cut: Cut) {
    FirstAt(text, COMMENT_END, from, k) && FirstAt(text, ENTRY_END, k + |COMMENT_END|, m) &&
    c.parse(Trim(text[from..k])).Ok? && cut.body == Trim(text[k + |COMMENT_END|..m]) && cut.rest == text[m + |ENTRY_END|..]
  }

  lemma FoundAt(text: string, pattern: string, from: nat)
    requires from <= |text| && Find(text[from..], pattern).Some?
    ensures FirstAt(text, pattern, from, from + Find(text[from..], pattern).value)
  {
    FindShifted(text, pattern, from, 0);
  }

  lemma CutAt(c: Codec, text: string, from: nat)
    requires from <= |text| && CutEntry(c, text[from..]).Ok?
    ensures exists k: nat, m: nat :: CutsAt(c, text, from, k, m, CutEntry(c, text[from..]).value)
  {
    hide Trim, FindFrom;
    var t := text[from..];
    FoundAt(text, COMMENT_END, from);
    var p := Find(t, COMMENT_END).value;
    var body := from + p + |COMMENT_END|;
    assert t[p + |COMMENT_END|..] == text[body..];
    FoundAt(text, ENTRY_END, body);
    var q := Find(text[body..], ENTRY_END).value;
    assert text[from..from + p] == t[..p];
    assert text[body..][..q] == text[body..body + q];
    assert text[body..][q + |ENTRY_END|..] == text[body + q + |ENTRY_END|..];
    assert CutsAt(c, text, from, from + p, body + q, CutEntry(c, t).value);
  }

  // A read that starts in front of an entry ends with it at the latest.
  lemma CutEnds(c: Codec, u: string, e: EntryRecord, tail: string, from: nat, k: nat, m: nat, cut: Cut)
    requires CutsAt(c, u + (EntryText(c, e) + tail), from, k, m, cut) && from <= |u| + |ENTRY_BEGIN|
    ensures k <= HeaderAt(c, u, e) && m <= EndAt(c, u, e)
  {
    Layout(c, u, e, tail);
    hide EntryText, HasAt, Lines, Render, Header, Trim;
  }

  // What a cut leaves: more of the text in front of the entry and the entry, or a rest of it, and the tail.
  lemma CutLeaves(c: Codec, u: string, e: EntryRecord, tail: string, m: nat)
    requires m <= EndAt(c, u, e)
    ensures var f := m + |ENTRY_END|; var text := u + (EntryText(c, e) + tail);
            f <= |u| + |EntryText(c, e)| <= |text| &&
            (f <= |u| ==> text[f..] == u[f..] + (EntryText(c, e) + tail)) &&
            (f > |u| ==> text[f..] == (u + EntryText(c, e))[f..] + tail)
  {
    Layout(c, u, e, tail);
    hide EntryText, HasAt, EndAt;
    Assoc(u, EntryText(c, e), tail);
  }

  // The parser's next read, where an entry lies ahead.
  lemma NextRead(c: Codec, u: string, e: EntryRecord, tail: string)
    requires ParseEntries(c, u + (EntryText(c, e) + tail)).Ok?
    ensures exists b: nat, k: nat, m: nat, cut: Cut, d: Durable :: ReadFrom(c, u, e, tail, b, k, m, cut, d)
  {
    var text := u + (EntryText(c, e) + tail);
    Layout(c, u, e, tail);
    ParseNext(c, text);
    hide EntryText, HasAt, CutEntry, ReadEntry, ParseEntries, EndAt;
    var b := Find(text, ENTRY_BEGIN).value;
    var from := b + |ENTRY_BEGIN|;
    FoundFirst(text, b);
    CutAt(c, text, from);
    var cut := CutEntry(c, text[from..]).value;
    var k: nat, m: nat :| CutsAt(c, text, from, k, m, cut);
    CutEnds(c, u, e, tail, from, k, m, cut);
    assert ReadFrom(c, u, e, tail, b, k, m, cut, ReadEntry(c, cut.metadata, cut.body).value);
  }

  lemma FoundFirst(text: string, b: nat)
    requires Find(text, ENTRY_BEGIN) == Some(b)
    ensures FirstAt(text, ENTRY_BEGIN, 0, b) && b + |ENTRY_BEGIN| <= |text|
  {
  }

  predicate ReadFrom(c: Codec, u: string, e: EntryRecord, tail: string, b: nat, k: nat, m: nat, cut: Cut, d: Durable) {
    var text := u + (EntryText(c, e) + tail);
    b <= |u| && FirstAt(text, ENTRY_BEGIN, 0, b) && CutsAt(c, text, b + |ENTRY_BEGIN|, k, m, cut) && m <= EndAt(c, u, e) &&
    ReadEntry(c, cut.metadata, cut.body) == Ok(d) && ParseEntries(c, text) == Prepend([d], ParseEntries(c, cut.rest)) &&
    ParseEntries(c, cut.rest).Ok?
  }

  /** Whatever stands between and in front of them: there are at least as many reads as exported entries. */
  lemma {:induction false} ReadsAtLeast(c: Codec, u: string, ps: seq<Piece>)
    ensures var r := ParseEntries(c, u + TextOf(c, ps)); r.Ok? ==> |r.value| >= |ItemsOf(ps)|
    decreases |ps|, |u|
  {
    hide EntryText, ParseEntries;
    if ps != [] && ParseEntries(c, u + TextOf(c, ps)).Ok? {
      var tail := TextOf(c, ps[1..]);
      match ps[0]
      case Head(text) =>
        Assoc(u, text, tail);
        ReadsAtLeast(c, u + text, ps[1..]);
      case Item(e) =>
        NextRead(c, u, e, tail);
        hide ReadEntry, CutsAt, FirstAt;
        var b: nat, k: nat, m: nat, cut: Cut, d: Durable :| ReadFrom(c, u, e, tail, b, k, m, cut, d);
        CutLeaves(c, u, e, tail, m);
        assert CutsAt(c, u + (EntryText(c, e) + tail), b + |ENTRY_BEGIN|, k, m, cut);
        CutRest(c, u + (EntryText(c, e) + tail), b + |ENTRY_BEGIN|, k, m, cut);
        var f := m + |ENTRY_END|;
        if f <= |u| {
          ReadsAtLeast(c, u[f..], ps);
        } else {
          ReadsAtLeast(c, (u + EntryText(c, e))[f..], ps[1..]);
        }
    }
  }

  lemma CutRest(c: Codec, text: string, from: nat, k: nat, m: nat, cut: Cut)
    requires CutsAt(c, text, from, k, m, cut)
    ensures m + |ENTRY_END| <= |text| && cut.rest == text[m + |ENTRY_END|..]
  {
  }

  // ---------- a read that starts early and ends within an entry ----------

  lemma AngledTrimmed(s: string)
    requires Angled(s)
    ensures Angled(Trim(s))
  {
    var i :| 0 <= i < |s| && AngleAt(s, i);
    TrimSpan(s);
    var lo: nat, hi: nat :| Core(s, lo, hi) && Trim(s) == s[lo..hi];
    assert lo <= i < hi;
    assert AngleAt(Trim(s), i - lo);
  }

  lemma {:induction false} AngledStart(s: string)
    requires Angled(s)
    ensures Angled(StripStart(s, JSON_FENCE))
  {
    if StartsWith(s, JSON_FENCE) {
      var i :| 0 <= i < |s| && AngleAt(s, i);
      var n := |JSON_FENCE|;
      assert forall j | 0 <= j < n :: s[j] == JSON_FENCE[j] != '<';
      assert AngleAt(s[n..], i - n);
      AngledStart(s[n..]);
    }
  }

  lemma {:induction false} AngledEnd(s: string)
    requires Angled(s)
    ensures Angled(StripEnd(s, FENCE))
  {
    if EndsWith(s, FENCE) {
      var i :| 0 <= i < |s| && AngleAt(s, i);
      var n := |s| - |FENCE|;
      assert forall j | n <= j < |s| :: s[j] == s[n..][j - n] == FENCE[j - n] != '<';
      assert AngleAt(s[..n], i);
      AngledEnd(s[..n]);
    }
  }

  /** A body with an angle bracket at the start of a line is no JSON value, fenced or not. */
  lemma AngledUnread(c: Codec, body: string)
    requires Lawful(c) && Angled(body)
    ensures c.parse(Unfenced(body)).Err?
  {
    hide Angled, Trim, StripStart, StripEnd, StartsWith, EndsWith;
    AngledTrimmed(body);
    var t := Trim(body);
    AngledStart(t);
    AngledEnd(StripStart(t, JSON_FENCE));
    AngledTrimmed(StripEnd(StripStart(t, JSON_FENCE), FENCE));
  }

  // The entry's begin marker starts a line of a stretch that reaches over it.
  lemma AngledOver(text: string, s: nat, lo: nat, hi: nat)
    requires 0 < s && lo < s < hi <= |text| && text[s - 1] == '\n' && HasAt(text, ENTRY_BEGIN, s)
    ensures Angled(text[lo..hi])
  {
    assert text[s..s + |ENTRY_BEGIN|][0] == text[s];
    assert AngleAt(text[lo..hi], s - lo);
  }

  // What reading tells about the value that came out.
  lemma ValueRead(c: Codec, metadata: Json, body: string, d: Durable)
    requires ReadEntry(c, metadata, body) == Ok(d)
    ensures if d.value.Markdown? then d.value.body == body else c.parse(Unfenced(body)).Ok?
  {
    hide Unfenced, Get, Normalize;
  }

  /** A read that starts in front of the entry and ends within it has the entry's begin marker in its body. */
  lemma EarlyRead(c: Codec, u: string, e: EntryRecord, tail: string, b: nat, k: nat, m: nat, cut: Cut, d: Durable)
    requires Lawful(c) && EndsLine(u) && ReadFrom(c, u, e, tail, b, k, m, cut, d) && b < |u| < m + |ENTRY_END|
    ensures k + |COMMENT_END| < |u| && |u| + |ENTRY_BEGIN| <= m
  {
    var text := u + (EntryText(c, e) + tail);
    Layout(c, u, e, tail);
    hide EntryText, ReadEntry, ParseEntries, EndAt, HeaderAt, BodyAt, Trim, Lawful;
    WithinLine(u, EntryText(c, e) + tail, ENTRY_BEGIN, b);
    var from := b + |ENTRY_BEGIN|;
    if k < |u| {
      WithinLine(u, EntryText(c, e) + tail, COMMENT_END, k);
    } else {
      assert text[|u|] == ENTRY_BEGIN[0] by { assert text[|u|..|u| + |ENTRY_BEGIN|][0] == text[|u|]; }
      assert text[k] == COMMENT_END[0] by { assert text[k..k + |COMMENT_END|][0] == text[k]; }
      AngledOver(text, |u|, from, k);
      AngledTrimmed(text[from..k]);
      assert c.parse(Trim(text[from..k])).Err? by { LinesLawful(c, Trim(text[from..k])); }
    }
    if m < |u| { WithinLine(u, EntryText(c, e) + tail, ENTRY_END, m); }
    MarkersApart(text, |u|, m);
  }

  lemma LinesLawful(c: Codec, t: string)
    requires Lawful(c) && Angled(t)
    ensures c.parse(t).Err?
  {
    hide Angled;
  }

  // A begin marker and an end marker never overlap.
  lemma MarkersApart(text: string, s: nat, m: nat)
    requires HasAt(text, ENTRY_BEGIN, s) && HasAt(text, ENTRY_END, m) && s <= m
    ensures s + |ENTRY_BEGIN| <= m
  {
    var n := |ENTRY_BEGIN|;
    assert forall j | s <= j < s + n :: text[j] == text[s..s + n][j - s] == ENTRY_BEGIN[j - s];
    assert text[m] == text[m..m + |ENTRY_END|][0] == '<';
    assert text[m + 5] == text[m..m + |ENTRY_END|][5] == '/';
    assert forall i | 0 < i < n :: ENTRY_BEGIN[i] != '<';
    assert ENTRY_BEGIN[5] == 'U';
  }

  // A stretch of a text holds what the text holds there.
  lemma StretchHas(s: string, lo: nat, hi: nat, pattern: string, at: nat)
    requires lo <= at && at + |pattern| <= hi <= |s|
    ensures HasAt(s, pattern, at) <==> HasAt(s[lo..hi], pattern, at - lo)
  {
    var x, y := s[lo..hi][at - lo..at - lo + |pattern|], s[at..at + |pattern|];
    assert forall i | 0 <= i < |pattern| :: x[i] == y[i];
  }

  lemma MarkerTrimmed(s: string, i: nat)
    requires HasAt(s, ENTRY_BEGIN, i)
    ensures Contains(Trim(s), ENTRY_BEGIN)
  {
    var n := |ENTRY_BEGIN|;
    assert s[i] == s[i..i + n][0] && s[i + n - 1] == s[i..i + n][n - 1];
    TrimSpan(s);
    var lo: nat, hi: nat :| Core(s, lo, hi) && Trim(s) == s[lo..hi];
    assert lo <= i && i + n - 1 < hi;
    StretchHas(s, lo, hi, ENTRY_BEGIN, i);
    assert HasAt(Trim(s), ENTRY_BEGIN, i - lo);
  }

  // A body ends at the first end marker.
  lemma NoEndInBody(text: string, from: nat, m: nat)
    requires FirstAt(text, ENTRY_END, from, m)
    ensures m <= |text| && !Contains(Trim(text[from..m]), ENTRY_END)
  {
    hide HasAt, IsSpace, Trim;
    StandsInside(text, ENTRY_END, m);
    var s := text[from..m];
    TrimSpan(s);
    var lo: nat, hi: nat :| Core(s, lo, hi) && Trim(s) == s[lo..hi];
    forall at | 0 <= at <= |s[lo..hi]| ensures !HasAt(s[lo..hi], ENTRY_END, at) {
      if HasAt(s[lo..hi], ENTRY_END, at) {
        StandsInside(s[lo..hi], ENTRY_END, at);
        StretchHas(s, lo, hi, ENTRY_END, lo + at);
        StretchHas(text, from, m, ENTRY_END, from + lo + at);
      }
    }
  }

  // Without an end marker in it, the value is read to its end.
  lemma ReadToTheEnd(text: string, r: string, at: nat, m: nat)
    requires at + |Lines(r)| <= |text| && text[at..at + |Lines(r)|] == Lines(r) && !Contains(r, ENTRY_END)
    requires HasAt(text, ENTRY_END, m) && at <= m <= at + |Lines(r)|
    ensures m == at + |Lines(r)|
  {
    var end := at + |Lines(r)|;
    if m < end {
      assert text[..end][end - 1] == text[at..end][end - 1 - at] == '\n';
      assert text == text[..end] + text[end..];
      WithinLine(text[..end], text[end..], ENTRY_END, m);
      StretchHas(text, at, end, ENTRY_END, m);
      assert r == Lines(r)[0..|r|];
      StretchHas(Lines(r), 0, |r|, ENTRY_END, m - at);
    }
  }

  // A stretch that holds more than white space in front of a tight text is longer than it, trimmed.
  lemma MoreThan(text: string, from: nat, s: nat, r: string, at: nat)
    requires from <= s < at && at + |Lines(r)| <= |text| && text[at..at + |Lines(r)|] == Lines(r)
    requires !IsSpace(text[s]) && Tight(r) && r != ""
    ensures |Trim(text[from..at + |Lines(r)|])| > |r|
  {
    hide IsSpace;
    var end := at + |Lines(r)|;
    var t := text[from..end];
    TrimSpan(t);
    var lo: nat, hi: nat :| Core(t, lo, hi) && Trim(t) == t[lo..hi];
    assert t[s - from] == text[s];
    var last := at + |r| - 1;
    assert t[last - from] == text[last] == Lines(r)[|r| - 1] == r[|r| - 1];
  }

  /** Nor is the entry itself what such a read yields, unless it leaves another begin marker behind. */
  lemma EarlyReadLeavesMarker(c: Codec, u: string, e: EntryRecord, tail: string, b: nat, k: nat, m: nat, cut: Cut)
    requires Lawful(c) && EndsLine(u) && ReadFrom(c, u, e, tail, b, k, m, cut, DurableOf(e)) && b < |u| < m + |ENTRY_END|
    ensures m + |ENTRY_END| <= |u| + |EntryText(c, e)| && Contains((u + EntryText(c, e))[m + |ENTRY_END|..], ENTRY_BEGIN)
  {
    var text, from := u + (EntryText(c, e) + tail), k + |COMMENT_END|;
    hide ReadFrom, EntryText, ReadEntry, ParseEntries, Trim, Lawful, Angled, Unfenced, Contains, HasAt, CutsAt, BodyAt, HeaderAt, Lines, FirstAt;
    EarlyRead(c, u, e, tail, b, k, m, cut, DurableOf(e));
    CutsToo(c, u, e, tail, b, k, m, cut, DurableOf(e));
    ValueRead(c, cut.metadata, cut.body, DurableOf(e));
    CutLeaves(c, u, e, tail, m);
    BodyFound(c, text, b + |ENTRY_BEGIN|, k, m, cut);
    Layout(c, u, e, tail);
    if e.value.JsonValue? {
      AngledOver(text, |u|, from, m);
      AngledTrimmed(text[from..m]);
      AngledUnread(c, cut.body);
    } else {
      PrefixOf(u, EntryText(c, e), tail);
      BodyLeavesMarker(text, e.value.body, |u|, from, BodyAt(c, u, e), m, |u| + |EntryText(c, e)|);
    }
  }

  lemma CutsToo(c: Codec, u: string, e: EntryRecord, tail: string, b: nat, k: nat, m: nat, cut: Cut, d: Durable)
    requires ReadFrom(c, u, e, tail, b, k, m, cut, d)
    ensures CutsAt(c, u + (EntryText(c, e) + tail), b + |ENTRY_BEGIN|, k, m, cut) && m <= EndAt(c, u, e)
    ensures ReadEntry(c, cut.metadata, cut.body) == Ok(d)
  {
    hide EntryText, ReadEntry, ParseEntries, CutsAt, FirstAt, EndAt;
  }

  // The case of a Markdown value: the body of the read would be the value, and hold a marker that only the value's text can hold.
  lemma BodyLeavesMarker(text: string, r: string, s: nat, from: nat, at: nat, m: nat, end: nat)
    requires from < s && s + |ENTRY_BEGIN| <= m && s < at && at + |Lines(r)| <= end <= |text|
    requires HasAt(text, ENTRY_BEGIN, s) && FirstAt(text, ENTRY_END, from, m) && HasAt(text, ENTRY_END, m) && m <= at + |Lines(r)|
    requires text[at - 1] == '\n' && text[at..at + |Lines(r)|] == Lines(r) && r == Trim(text[from..m])
    ensures m + |ENTRY_END| <= end && Contains(text[..end][m + |ENTRY_END|..], ENTRY_BEGIN)
  {
    hide Trim, Contains, HasAt, Lines, FirstAt;
    assert m <= |text| by { StandsInside(text, ENTRY_END, m); }
    MarkerInBody(text, s, from, m);
    if m < at {
      LeftInRest(text, r, at, m, end);
    } else {
      NoEndInBody(text, from, m);
      ReadToTheEnd(text, r, at, m);
      TrimIsTight(text[from..m]);
      MarkerChar(text, s);
      MoreThan(text, from, s, r, at);
    }
  }

  lemma StandsInside(text: string, pattern: string, at: nat)
    requires HasAt(text, pattern, at)
    ensures at + |pattern| <= |text|
  {
  }

  lemma PrefixOf(u: string, e: string, tail: string)
    ensures (u + (e + tail))[..|u| + |e|] == u + e
  {
  }

  lemma MarkerChar(text: string, s: nat)
    requires HasAt(text, ENTRY_BEGIN, s)
    ensures !IsSpace(text[s])
  {
    assert text[s..s + |ENTRY_BEGIN|][0] == text[s];
  }

  lemma BodyFound(c: Codec, text: string, from: nat, k: nat, m: nat, cut: Cut)
    requires CutsAt(c, text, from, k, m, cut)
    ensures FirstAt(text, ENTRY_END, k + |COMMENT_END|, m) && cut.body == Trim(text[k + |COMMENT_END|..m])
    ensures HasAt(text, ENTRY_END, m)
  {
  }

  lemma MarkerInBody(text: string, s: nat, from: nat, m: nat)
    requires HasAt(text, ENTRY_BEGIN, s) && from <= s && s + |ENTRY_BEGIN| <= m <= |text|
    ensures Contains(Trim(text[from..m]), ENTRY_BEGIN) && Trim(text[from..m]) != ""
  {
    StretchHas(text, from, m, ENTRY_BEGIN, s);
    MarkerTrimmed(text[from..m], s - from);
  }

  // A value that holds the begin marker and lies behind the cut leaves the marker in what remains.
  lemma LeftInRest(text: string, r: string, at: nat, m: nat, end: nat)
    requires at + |Lines(r)| <= end <= |text| && HasAt(text, ENTRY_END, m) && 0 < m < at && text[at - 1] == '\n'
    requires text[at..at + |Lines(r)|] == Lines(r) && Contains(r, ENTRY_BEGIN)
    ensures m + |ENTRY_END| <= end && Contains(text[..end][m + |ENTRY_END|..], ENTRY_BEGIN)
  {
    hide HasAt, Lines;
    assert text == text[..at] + text[at..];
    WithinLine(text[..at], text[at..], ENTRY_END, m);
    var i :| 0 <= i <= |r| && HasAt(r, ENTRY_BEGIN, i);
    var f := m + |ENTRY_END|;
    InLines(r, i);
    StretchHas(text, at, at + |Lines(r)|, ENTRY_BEGIN, at + i);
    StretchHas(text, f, end, ENTRY_BEGIN, at + i);
    assert text[..end][f..] == text[f..end];
  }

  lemma InLines(r: string, i: nat)
    requires HasAt(r, ENTRY_BEGIN, i)
    ensures i + |ENTRY_BEGIN| <= |r| <= |Lines(r)| && HasAt(Lines(r), ENTRY_BEGIN, i)
  {
    assert r == Lines(r)[0..|r|];
    StretchHas(Lines(r), 0, |r|, ENTRY_BEGIN, i);
  }

  // ---------- so the headings are quiet ----------

  lemma NothingToRead(c: Codec, u: string)
    requires ParseEntries(c, u) == Ok([])
    ensures !Contains(u, ENTRY_BEGIN)
  {
    hide CutEntry, ReadEntry;
    ParseNext(c, u);
  }

  lemma PartsQuiet(a: string, b: string)
    requires EndsLine(a) && !Contains(a + b, ENTRY_BEGIN)
    ensures !Contains(a, ENTRY_BEGIN) && !Contains(b, ENTRY_BEGIN)
  {
    assert '\n' !in ENTRY_BEGIN;
    ContainsConcat(a, b, ENTRY_BEGIN);
  }

  lemma QuietAgain(ps: seq<Piece>)
    requires ps != [] && QuietHeads(ps[1..]) && (ps[0].Head? ==> !Contains(ps[0].text, ENTRY_BEGIN))
    ensures QuietHeads(ps)
  {
    hide Contains;
    forall i | 0 <= i < |ps| && ps[i].Head? ensures !Contains(ps[i].text, ENTRY_BEGIN) {
      if i > 0 { assert ps[i] == ps[1..][i - 1]; }
    }
  }

  lemma NoneBefore(u: string, text: string)
    requires u <= text && FirstAt(text, ENTRY_BEGIN, 0, |u|)
    ensures !Contains(u, ENTRY_BEGIN)
  {
    forall at | 0 <= at <= |u| ensures !HasAt(u, ENTRY_BEGIN, at) {
      if HasAt(u, ENTRY_BEGIN, at) {
        assert u == text[0..|u|];
        StretchHas(text, 0, |u|, ENTRY_BEGIN, at);
      }
    }
  }

  // Where an entry lies ahead and comes back first, the read was its own, or left a marker behind.
  lemma ItemRead(c: Codec, u: string, e: EntryRecord, ps: seq<Piece>)
    requires Lawful(c) && EndsLine(u)
    requires ParseEntries(c, u + (EntryText(c, e) + TextOf(c, ps))) == Ok([DurableOf(e)] + Durables(ItemsOf(ps)))
    ensures exists w :: EndsLine(w) && ParseEntries(c, w + TextOf(c, ps)) == Ok(Durables(ItemsOf(ps))) &&
                        (Contains(u, ENTRY_BEGIN) ==> Contains(w, ENTRY_BEGIN))
  {
    var tail := TextOf(c, ps);
    var text := u + (EntryText(c, e) + tail);
    hide ReadFrom, EntryText, Lawful, ParseEntries, Contains, DurableOf, FirstAt, EndAt, TextOf, ItemsOf, Durables;
    NextRead(c, u, e, tail);
    var b: nat, k: nat, m: nat, cut: Cut, d: Durable :| ReadFrom(c, u, e, tail, b, k, m, cut, d);
    ReadFacts(c, u, e, tail, b, k, m, cut, d);
    CutLeaves(c, u, e, tail, m);
    var rest, f := ParseEntries(c, cut.rest), m + |ENTRY_END|;
    SameParts(d, rest.value, DurableOf(e), Durables(ItemsOf(ps)));
    if f <= |u| {
      OneMore(c, u[f..], e, ps);
    } else {
      var w := (u + EntryText(c, e))[f..];
      EntryEnds(c, u, e, f);
      if b < |u| {
        EarlyReadLeavesMarker(c, u, e, tail, b, k, m, cut);
      } else {
        NoneBefore(u, text);
      }
    }
  }

  lemma ReadFacts(c: Codec, u: string, e: EntryRecord, tail: string, b: nat, k: nat, m: nat, cut: Cut, d: Durable)
    requires ReadFrom(c, u, e, tail, b, k, m, cut, d)
    ensures var text := u + (EntryText(c, e) + tail);
            b <= |u| && FirstAt(text, ENTRY_BEGIN, 0, b) && m <= EndAt(c, u, e) && m + |ENTRY_END| <= |text| && cut.rest == text[m + |ENTRY_END|..] &&
            ParseEntries(c, cut.rest).Ok? && ParseEntries(c, text) == Ok([d] + ParseEntries(c, cut.rest).value)
  {
    hide EntryText, ParseEntries, EndAt, ReadEntry, Trim;
    CutRest(c, u + (EntryText(c, e) + tail), b + |ENTRY_BEGIN|, k, m, cut);
  }

  lemma SameParts(d: Durable, rest: seq<Durable>, d': Durable, rest': seq<Durable>)
    requires [d] + rest == [d'] + rest'
    ensures d == d' && rest == rest'
  {
    assert ([d] + rest)[0] == d && ([d'] + rest')[0] == d';
    assert ([d] + rest)[1..] == rest && ([d'] + rest')[1..] == rest';
  }

  lemma OneMore(c: Codec, u: string, e: EntryRecord, ps: seq<Piece>)
    ensures ParseEntries(c, u + (EntryText(c, e) + TextOf(c, ps))) != Ok(Durables(ItemsOf(ps)))
  {
    hide EntryText, ParseEntries, DurableOf;
    var all := [Item(e)] + ps;
    assert all[1..] == ps;
    ReadsAtLeast(c, u, all);
    DurablesConcat(ItemsOf(ps), []);
  }

  lemma EntryEnds(c: Codec, u: string, e: EntryRecord, f: nat)
    requires f <= |u| + |EntryText(c, e)|
    ensures EndsLine((u + EntryText(c, e))[f..])
  {
    hide Header, Render, Lines;
    var t := u + EntryText(c, e);
    assert t[|t| - 1] == '\n';
  }

  /**
   If what is read are exactly the exported entries, no begin marker stands in front of them or in a heading: a
   read from there would be one too many, or swallow an entry and bring back something else.
   */
  lemma {:induction false} HeadingsQuiet(c: Codec, u: string, ps: seq<Piece>)
    requires Lawful(c) && EndsLine(u) && LinesEnded(ps) && ParseEntries(c, u + TextOf(c, ps)) == Ok(Durables(ItemsOf(ps)))
    ensures !Contains(u, ENTRY_BEGIN) && QuietHeads(ps)
    decreases |ps|
  {
    hide EntryText, Lawful, ParseEntries, Contains;
    if ps == [] {
      assert u + "" == u;
      NothingToRead(c, u);
    } else {
      var tail := TextOf(c, ps[1..]);
      match ps[0]
      case Head(text) =>
        Assoc(u, text, tail);
        assert ItemsOf(ps) == ItemsOf(ps[1..]);
        assert u + text == "" || (u + text)[|u + text| - 1] == '\n';
        HeadingsQuiet(c, u + text, ps[1..]);
        PartsQuiet(u, text);
        QuietAgain(ps);
      case Item(e) =>
        ItemRead(c, u, e, ps[1..]);
        var w :| EndsLine(w) && ParseEntries(c, w + tail) == Ok(Durables(ItemsOf(ps[1..]))) &&
                 (Contains(u, ENTRY_BEGIN) ==> Contains(w, ENTRY_BEGIN));
        HeadingsQuiet(c, w, ps[1..]);
        QuietAgain(ps);
    }
  }
}
