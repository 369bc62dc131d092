/** Printer and parser of the Markdown bundle undo each other, and exactly when. */
module MarkdownLaws {
  import opened Prelude
  import opened JsonTree
  import opened Model
  import opened Text
  import opened Markdown

  // What a JSON value of the library can be: objects hold each key once and list them in order.
  predicate Storable(j: Json) {
    WellFormed(j) && CanonicalOrder(j)
  }

  // An angle bracket at the start of a line.
  predicate Angled(s: string) {
    exists i | 0 <= i < |s| :: AngleAt(s, i)
  }

  predicate AngleAt(s: string, i: nat)
    requires i < |s|
  {
    s[i] == '<' && (i == 0 || s[i - 1] == '\n')
  }

  // What the JSON library promises: its two printers are undone by its parser, it prints no white space
  // around a value, no JSON text starts with a back-tick or has a line that starts with an angle bracket
  // (line breaks stand between tokens, angle brackets in strings), and a text that breaks off early is not
  // read as the value it was to become.
  ghost predicate Lawful(c: Codec) {
    (forall j | Storable(j) :: c.parse(c.compact(j)) == Ok(j) && Tight(c.compact(j))) &&
    (forall j | Storable(j) :: c.parse(c.pretty(j)) == Ok(j) && Tight(c.pretty(j))) &&
    (forall t | c.parse(t).Ok? :: t != "" && t[0] != '`' && !Angled(t)) &&
    (forall j, t | Storable(j) && j.Object? && BreaksOff(t, c.compact(j)) :: c.parse(Trim(t)).Err?) &&
    (forall j, t | Storable(j) && BreaksOff(t, c.pretty(j)) :: c.parse(Trim(t)) != Ok(j))
  }

  predicate BreaksOff(t: string, s: string) { t < s }

  predicate EntryStorable(e: EntryRecord) {
    Storable(e.metadata) && (e.value.JsonValue? ==> Storable(e.value.json))
  }

  function DurableOf(e: EntryRecord): Durable {
    Durable(e.scope, e.packName, e.key, e.title, e.kind, e.value, e.tags, e.locked, e.metadata)
  }

  /** What it takes for an entry to survive the trip. */
  ghost predicate Survives(c: Codec, e: EntryRecord) {
    Normalized(e.scope) && !Contains(c.compact(Header(e)), COMMENT_END) &&
    Tight(Render(c, e.value)) && !Contains(Render(c, e.value), ENTRY_END)
  }

  // ---------- the header ----------

  lemma NamesAscend()
    ensures forall i, j | 0 <= i < j < |NAMES| :: Less(NAMES[i], NAMES[j])
  {
    hide Less;
    LessAt("format", "key", 0);
    LessAt("key", "kind", 1);
    LessAt("kind", "locked", 0);
    LessAt("locked", "metadata", 0);
    LessAt("metadata", "pack_name", 0);
    LessAt("pack_name", "scope_id", 0);
    assert "scope_id"[..6] == "scope_kind"[..6];
    LessAt("scope_id", "scope_kind", 6);
    LessAt("scope_kind", "tags", 0);
    LessAt("tags", "title", 1);
    assert forall k | 0 <= k < |NAMES| - 1 :: Less(NAMES[k], NAMES[k + 1]);
    forall i, j | 0 <= i < j < |NAMES| ensures Less(NAMES[i], NAMES[j]) { LessChain(NAMES, i, j); }
  }

  lemma HeaderNames(e: EntryRecord)
    ensures |Header(e).fields| == |NAMES| && forall i | 0 <= i < |NAMES| :: Header(e).fields[i].name == NAMES[i]
  {
  }

  lemma HeaderDistinct(e: EntryRecord)
    ensures DistinctNames(Header(e).fields) && Sorted(Header(e).fields)
  {
    HeaderNames(e);
    NamesAscend();
    forall i, j | 0 <= i < j < |Header(e).fields| ensures Header(e).fields[i].name != Header(e).fields[j].name {
      LessTrichotomy(NAMES[i], NAMES[j]);
    }
    forall i, j | 0 <= i < j < |Header(e).fields| ensures !Less(Header(e).fields[j].name, Header(e).fields[i].name) {
      LessTrichotomy(NAMES[i], NAMES[j]);
    }
  }

  lemma HeaderStorable(e: EntryRecord)
    requires Storable(e.metadata)
    ensures Storable(Header(e))
  {
    HeaderDistinct(e);
    var fields := Header(e).fields;
    forall i | 0 <= i < |fields| ensures WellFormed(fields[i].value) && CanonicalOrder(fields[i].value) {
      if i == 8 { assert fields[8].value == Array(StrAll(e.tags)); }
    }
  }

  lemma {:induction false} FieldFound(fields: seq<Field>, i: nat)
    requires DistinctNames(fields) && i < |fields|
    ensures FindField(fields, fields[i].name) == Some(fields[i].value)
  {
    if i > 0 { FieldFound(fields[1..], i - 1); }
  }

  lemma HeaderGet(e: EntryRecord, i: nat)
    requires i < |NAMES|
    ensures i < |Header(e).fields| && Get(Header(e), NAMES[i]) == Some(Header(e).fields[i].value)
  {
    HeaderNames(e);
    HeaderDistinct(e);
    FieldFound(Header(e).fields, i);
  }

  lemma {:induction false} StringsBack(ss: seq<string>)
    ensures Strings(StrAll(ss)) == ss
  {
    if ss != [] {
      assert StrAll(ss)[1..] == StrAll(ss[1..]);
      StringsBack(ss[1..]);
    }
  }

  // Every member that reading looks up is the one that was written.
  lemma HeaderMembers(e: EntryRecord)
    ensures var h := Header(e);
            Get(h, "format") == Some(Str(FormatName(e.value))) && Get(h, "key") == Some(Str(e.key)) && Get(h, "kind") == Some(Str(e.kind)) &&
            Get(h, "locked") == Some(Bool(e.locked)) && Get(h, "metadata") == Some(e.metadata) && Get(h, "pack_name") == Some(Str(e.packName)) &&
            Get(h, "scope_id") == Some(Str(e.scope.id)) && Get(h, "scope_kind") == Some(Str(KindName(e.scope.kind))) &&
            Get(h, "tags") == Some(Array(StrAll(e.tags))) && Get(h, "title") == Some(if e.title.Some? then Str(e.title.value) else Null)
  {
    hide Get;
    HeaderGet(e, 0);
    HeaderGet(e, 1);
    HeaderGet(e, 2);
    HeaderGet(e, 3);
    HeaderGet(e, 4);
    HeaderGet(e, 5);
    HeaderGet(e, 6);
    HeaderGet(e, 7);
    HeaderGet(e, 8);
    HeaderGet(e, 9);
  }

  /** Reading back a header yields the entry, with the scope normalised and the value read from the body. */
  lemma HeaderRead(c: Codec, e: EntryRecord, body: string)
    ensures var r := ReadEntry(c, Header(e), body); var scope, value := Normalize(e.scope), ReadValue(c, FormatName(e.value), body);
            (r.Ok? <==> scope.Ok? && value.Ok?) &&
            (r.Ok? ==> r.value == DurableOf(e).(scope := scope.value, value := value.value))
  {
    hide Get, ReadValue, Normalize, StrAll, Strings, Header;
    HeaderMembers(e);
    StringsBack(e.tags);
  }

  // ---------- the value ----------

  lemma LinesShape(r: string)
    requires Tight(r)
    ensures Lines(r) == if r == "" then "" else r + "\n"
  {
  }

  /** A tight text comes back from between its lines. */
  lemma LinesTrimmed(r: string)
    requires Tight(r)
    ensures Trim("\n" + Lines(r)) == r
  {
    LinesShape(r);
    if r == "" {
      TrimPadded("\n", "", "");
      assert "\n" + "" + "" == "\n" + Lines(r);
    } else {
      TrimPadded("\n", r, "\n");
      assert "\n" + r + "\n" == "\n" + Lines(r);
    }
  }

  lemma RenderedJsonTight(c: Codec, json: Json)
    ensures Tight(Render(c, JsonValue(json)))
  {
    var r := Render(c, JsonValue(json));
    assert r[|r| - 1] == FENCE[2];
  }

  lemma StripStartOnce(inner: string)
    requires inner != "" && inner[0] == '\n'
    ensures StripStart(JSON_FENCE + inner, JSON_FENCE) == inner
  {
    var s := JSON_FENCE + inner;
    assert s[|JSON_FENCE|..] == inner;
    assert JSON_FENCE[0] == '`';
  }

  lemma StripEndOnce(core: string)
    requires core != "" && core[|core| - 1] == '\n'
    ensures StripEnd(core + FENCE, FENCE) == core && EndsWith(core + FENCE, FENCE)
  {
    var s := core + FENCE;
    assert s[|s| - |FENCE|..] == FENCE && s[..|s| - |FENCE|] == core;
    assert |core| >= 3 ==> core[|core| - 3..][2] == '\n';
    assert FENCE[2] == '`';
  }

  /** The fence comes off a rendered JSON value. */
  lemma FenceComesOff(c: Codec, json: Json)
    requires Tight(c.pretty(json))
    ensures Unfenced(Render(c, JsonValue(json))) == c.pretty(json)
  {
    var r, p := Render(c, JsonValue(json)), c.pretty(json);
    RenderedJsonTight(c, json);
    TrimIsTight(r);
    var core := "\n" + p + "\n";
    assert r == JSON_FENCE + (core + FENCE) == JSON_FENCE + core + FENCE;
    StripStartOnce(core + FENCE);
    StripEndOnce(core);
    assert EndsWith(r, FENCE) by { assert r[|r| - |FENCE|..] == FENCE; }
    TrimPadded("\n", p, "\n");
    hide Trim, StripStart, StripEnd, Render, Tight;
  }

  lemma ValueReadBack(c: Codec, v: EntryValue)
    requires Lawful(c) && (v.JsonValue? ==> Storable(v.json))
    ensures ReadValue(c, FormatName(v), Render(c, v)) == Ok(v)
  {
    if v.JsonValue? { FenceComesOff(c, v.json); }
  }

  // ---------- a body cut short ----------

  // An end marker inside a rendered JSON value lies within the JSON text.
  lemma MarkerInJson(c: Codec, json: Json, m: nat)
    requires HasAt(Render(c, JsonValue(json)), ENTRY_END, m)
    ensures |JSON_FENCE| + 1 <= m < |JSON_FENCE| + 1 + |c.pretty(json)|
    ensures Render(c, JsonValue(json))[..m] == JSON_FENCE + "\n" + c.pretty(json)[..m - |JSON_FENCE| - 1]
  {
    var r, p := Render(c, JsonValue(json)), c.pretty(json);
    assert forall i | m <= i < m + |ENTRY_END| :: r[i] == r[m..m + |ENTRY_END|][i - m] && r[i] in ENTRY_END;
    assert r[7] == '\n' && r[8 + |p|] == '\n';
    assert '\n' !in ENTRY_END;
    assert |r| == 12 + |p|;
    assert m > 7;
    assert r[8..8 + |p|] == p;
  }

  /** A rendered JSON value that breaks off is not read as the value. */
  lemma BrokenJson(c: Codec, json: Json, u: string)
    requires Lawful(c) && Storable(json) && BreaksOff(u, c.pretty(json))
    ensures c.parse(Unfenced(Trim(JSON_FENCE + "\n" + u))) != Ok(json)
  {
    var t := JSON_FENCE + "\n" + u;
    assert t[0] == JSON_FENCE[0] == '`';
    TrimIsPrefix(t);
    var body := Trim(t);
    TrimIsTight(t);
    TrimIsTight(body);
    assert body[0] == '`';
    if StartsWith(body, JSON_FENCE) && EndsWith(body, FENCE) {
      BrokenFenced(c, json, u, body);
    }
  }

  lemma LongerThanFence(body: string)
    requires StartsWith(body, JSON_FENCE) && EndsWith(body, FENCE)
    ensures |body| > |JSON_FENCE|
  {
    assert JSON_FENCE[6] == 'n' && body[|body| - |FENCE|..][2] == body[|body| - 1] == '`';
  }

  lemma BrokenFenced(c: Codec, json: Json, u: string, body: string)
    requires Lawful(c) && Storable(json) && BreaksOff(u, c.pretty(json))
    requires body <= JSON_FENCE + "\n" + u && StartsWith(body, JSON_FENCE) && EndsWith(body, FENCE)
    ensures c.parse(Trim(StripEnd(StripStart(body, JSON_FENCE), FENCE))) != Ok(json)
  {
    LongerThanFence(body);
    var v := u[..|body| - 8];
    assert body == JSON_FENCE + ("\n" + v) by {
      var t := JSON_FENCE + "\n" + u;
      assert body == t[..|body|] && t == JSON_FENCE + ("\n" + u);
    }
    StripStartOnce("\n" + v);
    StripEndIsPrefix("\n" + v, FENCE);
    PrefixUnread(c, json, u, v, StripEnd("\n" + v, FENCE));
  }

  lemma PrefixUnread(c: Codec, json: Json, u: string, v: string, w: string)
    requires Lawful(c) && Storable(json) && BreaksOff(u, c.pretty(json)) && v <= u && w <= "\n" + v
    ensures c.parse(Trim(w)) != Ok(json)
  {
    if w == "" {
      assert BreaksOff("", c.pretty(json));
    } else {
      var x := w[1..];
      assert w == ['\n'] + x;
      TrimAfterSpace('\n', x);
      assert x == v[..|x|] == c.pretty(json)[..|x|];
      assert BreaksOff(x, c.pretty(json));
    }
  }

  /** Where the rendered value contains the end marker, what is read is not the value. */
  lemma CutShort(c: Codec, v: EntryValue, m: nat)
    requires Lawful(c) && (v.JsonValue? ==> Storable(v.json)) && HasAt(Render(c, v), ENTRY_END, m)
    ensures ReadValue(c, FormatName(v), Trim(Render(c, v)[..m])) != Ok(v)
  {
    var r := Render(c, v);
    match v
    case Markdown(body) => TrimIsTight(r[..m]);
    case JsonValue(json) =>
      MarkerInJson(c, json, m);
      BrokenJson(c, json, c.pretty(json)[..m - |JSON_FENCE| - 1]);
  }

  /** A value that is not tight does not come back either. */
  lemma NotTight(c: Codec, v: EntryValue, text: string)
    requires !Tight(Render(c, v))
    ensures ReadValue(c, FormatName(v), Trim(text)) != Ok(v)
  {
    TrimIsTight(text);
    if v.JsonValue? { RenderedJsonTight(c, v.json); }
  }

  // ---------- one entry ----------

  // What follows the begin marker of an exported entry.
  function Behind(h: string, r: string, tail: string): string {
    " " + h + " " + COMMENT_END + "\n" + Lines(r) + ENTRY_END + "\n\n" + tail
  }

  lemma HeaderCut(c: Codec, h: string, r: string, tail: string)
    requires !Contains(h, COMMENT_END)
    ensures Find(Behind(h, r, tail), COMMENT_END) == Some(|h| + 2)
    ensures Behind(h, r, tail)[..|h| + 2] == " " + h + " "
    ensures Behind(h, r, tail)[|h| + 2 + |COMMENT_END|..] == "\n" + Lines(r) + ENTRY_END + "\n\n" + tail
  {
    var a, rest := " " + h + " ", "\n" + Lines(r) + ENTRY_END + "\n\n" + tail;
    assert Behind(h, r, tail) == a + COMMENT_END + rest by { BehindParts(h, r, tail); }
    ContainsConcat(" ", h + " ", COMMENT_END);
    ContainsSpaced(h);
    assert a == " " + (h + " ");
    FindAfter(a, COMMENT_END, rest);
  }

  lemma BehindParts(h: string, r: string, tail: string)
    ensures Behind(h, r, tail) == (" " + h + " ") + COMMENT_END + ("\n" + Lines(r) + ENTRY_END + "\n\n" + tail)
  {
    hide Lines;
    var a, l := " " + h + " " + COMMENT_END, Lines(r);
    assert a + "\n" + l + ENTRY_END + "\n\n" + tail == a + ("\n" + l + ENTRY_END + "\n\n" + tail);
  }

  // Spaces around a header bring no end of comment about.
  lemma ContainsSpaced(h: string)
    requires !Contains(h, COMMENT_END)
    ensures !Contains(h + " ", COMMENT_END) && !Contains(" ", COMMENT_END)
  {
    var s := h + " ";
    forall at | 0 <= at <= |s| ensures !HasAt(s, COMMENT_END, at) {
      if HasAt(s, COMMENT_END, at) {
        assert s[at..at + 3][2] == '>' && s[|s| - 1] == ' ';
        assert h[at..at + 3] == s[at..at + 3];
        assert HasAt(h, COMMENT_END, at);
      }
    }
  }

  /** A header that contains the end of a comment is cut off there, and then is not JSON any more. */
  lemma HeaderBroken(c: Codec, e: EntryRecord, r: string, tail: string)
    requires Lawful(c) && Storable(Header(e)) && Contains(c.compact(Header(e)), COMMENT_END)
    ensures CutEntry(c, Behind(c.compact(Header(e)), r, tail)).Err?
  {
    assert Header(e).Object?;
    hide Lines, Behind, Header, Find;
    var h := c.compact(Header(e));
    var k := Find(h, COMMENT_END).value;
    var rest := " " + COMMENT_END + "\n" + Lines(r) + ENTRY_END + "\n\n" + tail;
    BehindSplit(h, r, tail);
    FindInside(h, COMMENT_END, rest);
    FindBehind(' ', h + rest, COMMENT_END);
    BrokenHeaderText(c, Header(e), h, rest, k);
  }

  lemma BrokenHeaderText(c: Codec, j: Json, h: string, rest: string, k: nat)
    requires Lawful(c) && Storable(j) && j.Object? && h == c.compact(j) && k < |h|
    ensures var s := " " + (h + rest); k + 1 <= |s| && c.parse(Trim(s[..k + 1])).Err?
  {
    var s := " " + (h + rest);
    assert s[..k + 1] == [' '] + h[..k];
    TrimAfterSpace(' ', h[..k]);
    assert BreaksOff(h[..k], h);
  }

  lemma BehindSplit(h: string, r: string, tail: string)
    ensures Behind(h, r, tail) == " " + (h + (" " + COMMENT_END + "\n" + Lines(r) + ENTRY_END + "\n\n" + tail))
  {
    hide Lines;
    var l := Lines(r);
    assert " " + h + " " + COMMENT_END == " " + h + (" " + COMMENT_END);
    assert " " + h + (" " + COMMENT_END) + "\n" + l + ENTRY_END + "\n\n" + tail
        == " " + h + (" " + COMMENT_END + "\n" + l + ENTRY_END + "\n\n" + tail);
  }

  // The body as it is cut out of the text behind the header.
  lemma BodyCut(r: string, tail: string)
    requires !Contains(r, ENTRY_END)
    ensures var rest := "\n" + Lines(r) + ENTRY_END + "\n\n" + tail; var m := |"\n" + Lines(r)|;
            Find(rest, ENTRY_END) == Some(m) && rest[..m] == "\n" + Lines(r) && rest[m + |ENTRY_END|..] == "\n\n" + tail
  {
    var a := "\n" + Lines(r);
    assert "\n" + Lines(r) + ENTRY_END + "\n\n" + tail == a + ENTRY_END + ("\n\n" + tail);
    LinesFree(r);
    FindAfter(a, ENTRY_END, "\n\n" + tail);
  }

  lemma LinesFree(r: string)
    ensures EndsOutside("\n" + Lines(r), ENTRY_END) && (Contains("\n" + Lines(r), ENTRY_END) <==> Contains(r, ENTRY_END))
  {
    assert '\n' !in ENTRY_END;
    ContainsConcat("\n", Lines(r), ENTRY_END);
    NoMarkerIn("\n", ENTRY_END);
    NoMarkerIn("", ENTRY_END);
    if Lines(r) != r { LineEndFree(r); }
  }

  lemma NoMarkerIn(s: string, pattern: string)
    requires |s| < |pattern|
    ensures !Contains(s, pattern)
  {
  }

  lemma LineEndFree(r: string)
    ensures Contains(r + "\n", ENTRY_END) <==> Contains(r, ENTRY_END)
  {
    var s := r + "\n";
    if Contains(s, ENTRY_END) {
      var at :| 0 <= at <= |s| && HasAt(s, ENTRY_END, at);
      assert s[|s| - 1] == '\n' && '\n' !in ENTRY_END;
      assert forall i | at <= i < at + |ENTRY_END| :: s[i] == s[at..at + |ENTRY_END|][i - at] && s[i] in ENTRY_END;
      assert r[at..at + |ENTRY_END|] == s[at..at + |ENTRY_END|];
      assert HasAt(r, ENTRY_END, at);
    }
    if Contains(r, ENTRY_END) {
      var at :| 0 <= at <= |r| && HasAt(r, ENTRY_END, at);
      assert s[at..at + |ENTRY_END|] == r[at..at + |ENTRY_END|];
      assert HasAt(s, ENTRY_END, at);
    }
  }

  // A body that contains the end marker is cut at the marker.
  lemma BodyCutShort(r: string, tail: string)
    requires Contains(r, ENTRY_END)
    ensures var rest := "\n" + Lines(r) + ENTRY_END + "\n\n" + tail;
            exists m: nat :: HasAt(r, ENTRY_END, m) && Find(rest, ENTRY_END) == Some(m + 1) && rest[..m + 1] == "\n" + r[..m]
  {
    var rest := "\n" + Lines(r) + ENTRY_END + "\n\n" + tail;
    var m := Find(r, ENTRY_END).value;
    var more := Lines(r)[|r|..] + ENTRY_END + "\n\n" + tail;
    assert rest == ['\n'] + (r + more) by { LinesSplit(r, tail); }
    FindInside(r, ENTRY_END, more);
    FindBehind('\n', r + more, ENTRY_END);
    assert rest[..m + 1] == "\n" + r[..m];
  }

  lemma LinesSplit(r: string, tail: string)
    ensures r <= Lines(r)
    ensures "\n" + Lines(r) + ENTRY_END + "\n\n" + tail == ['\n'] + (r + (Lines(r)[|r|..] + ENTRY_END + "\n\n" + tail))
  {
    var l := Lines(r);
    assert l == r + l[|r|..];
    var x := ENTRY_END + "\n\n" + tail;
    assert "\n" + l + ENTRY_END + "\n\n" + tail == "\n" + (r + l[|r|..]) + x;
    assert l[|r|..] + ENTRY_END + "\n\n" + tail == l[|r|..] + x;
  }
}
