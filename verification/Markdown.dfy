/** The Markdown bundle: printer and parser (`markdown.rs`). */
module Markdown {
  import opened Prelude
  import opened JsonTree
  import opened Model
  import opened Text

  const ENTRY_BEGIN := "<!-- UCM_ENTRY"
  const ENTRY_END := "<!-- /UCM_ENTRY -->"
  const COMMENT_END := "-->"
  const TITLE := "# Universal Context Export\n\n"
  const FENCE := "```"
  const JSON_FENCE := "```json"

  /** The JSON library: compact text, indented text and parser. */
  datatype Codec = Codec(compact: Json -> string, pretty: Json -> string, parse: string -> Result<Json>)

  // What an import restores of an entry; ids, times, revision number and provenance are made up anew.
  datatype Durable = Durable(
    scope: ScopeRef, packName: string, key: string, title: Option<string>, kind: string, value: EntryValue,
    tags: seq<string>, locked: bool, metadata: Json)

  datatype PackName = PackName(scope: ScopeRef, name: string)

  datatype Imported = Imported(packs: seq<PackName>, entries: seq<Durable>)

  function KindName(kind: ScopeKind): string {
    match kind case Global => "global" case Project => "project" case Task => "task"
  }

  function KindOf(name: string): Result<ScopeKind> {
    if name == "global" then Ok(Global) else if name == "project" then Ok(Project)
    else if name == "task" then Ok(Task) else Err(Validation)
  }

  function FormatName(v: EntryValue): string {
    if v.Markdown? then "markdown" else "json"
  }

  function Render(c: Codec, v: EntryValue): string {
    match v
    case Markdown(body) => body
    case JsonValue(json) => JSON_FENCE + "\n" + c.pretty(json) + "\n" + FENCE
  }

  // ---------- export ----------

  const NAMES := ["format", "key", "kind", "locked", "metadata", "pack_name", "scope_id", "scope_kind", "tags", "title"]

  function StrAll(ss: seq<string>): seq<Json> {
    seq(|ss|, i requires 0 <= i < |ss| => Str(ss[i]))
  }

  function Header(e: EntryRecord): Json {
    Object([
      Field("format", Str(FormatName(e.value))), Field("key", Str(e.key)), Field("kind", Str(e.kind)),
      Field("locked", Bool(e.locked)), Field("metadata", e.metadata), Field("pack_name", Str(e.packName)),
      Field("scope_id", Str(e.scope.id)), Field("scope_kind", Str(KindName(e.scope.kind))),
      Field("tags", Array(StrAll(e.tags))), Field("title", if e.title.Some? then Str(e.title.value) else Null)])
  }

  function Heading(p: PackRecord): string {
    "## Pack `" + p.name + "` (" + KindName(p.scope.kind) + ":" + p.scope.id + ")\n\n" +
    (if p.description.Some? then p.description.value + "\n\n" else "")
  }

  // The rendered value on lines of its own.
  function Lines(s: string): string {
    if s == "" || s[|s| - 1] == '\n' then s else s + "\n"
  }

  function EntryText(c: Codec, e: EntryRecord): string {
    ENTRY_BEGIN + " " + c.compact(Header(e)) + " " + COMMENT_END + "\n" + Lines(Render(c, e.value)) + ENTRY_END + "\n\n"
  }

  function EntriesText(c: Codec, es: seq<EntryRecord>): string {
    if es == [] then "" else EntryText(c, es[0]) + EntriesText(c, es[1..])
  }

  function EntriesOf(p: PackRecord, es: seq<EntryRecord>): seq<EntryRecord> {
    if es == [] then [] else
      (if es[0].scope == p.scope && es[0].packName == p.name then [es[0]] else []) + EntriesOf(p, es[1..])
  }

  function PacksText(c: Codec, packs: seq<PackRecord>, es: seq<EntryRecord>): string {
    if packs == [] then "" else Heading(packs[0]) + EntriesText(c, EntriesOf(packs[0], es)) + PacksText(c, packs[1..], es)
  }

  function ExportText(c: Codec, packs: seq<PackRecord>, es: seq<EntryRecord>): string {
    TITLE + PacksText(c, packs, es)
  }

  lemma Assoc(a: string, b: string, c: string)
    ensures a + b + c == a + (b + c)
  {
  }

  /** `export_markdown`: the text is pushed together pack by pack and entry by entry. */
  method Export(c: Codec, packs: seq<PackRecord>, es: seq<EntryRecord>) returns (out: string)
    ensures out == ExportText(c, packs, es)
  {
    hide EntriesText, EntriesOf, Heading;
    out := TITLE;
    for n := 0 to |packs|
      invariant out + PacksText(c, packs[n..], es) == ExportText(c, packs, es)
    {
      ghost var before, rest := out, PacksText(c, packs[n + 1..], es);
      var pack := packs[n];
      out := out + "## Pack `" + pack.name + "` (" + KindName(pack.scope.kind) + ":" + pack.scope.id + ")\n\n";
      if pack.description.Some? {
        out := out + pack.description.value;
        out := out + "\n\n";
      }
      HeadingPushed(before, pack);
      var entries := EntriesOf(pack, es);
      out := ExportEntries(c, entries, out);
      assert packs[n..][1..] == packs[n + 1..];
      PackPushed(before, Heading(pack), EntriesText(c, entries), rest);
    }
    assert packs[|packs|..] == [];
    assert out + "" == out;
  }

  lemma HeadingPushed(before: string, p: PackRecord)
    ensures var line := before + "## Pack `" + p.name + "` (" + KindName(p.scope.kind) + ":" + p.scope.id + ")\n\n";
            (if p.description.Some? then line + p.description.value + "\n\n" else line) == before + Heading(p)
  {
    var line := before + "## Pack `" + p.name + "` (" + KindName(p.scope.kind) + ":" + p.scope.id + ")\n\n";
    assert line == before + ("## Pack `" + p.name + "` (" + KindName(p.scope.kind) + ":" + p.scope.id + ")\n\n");
  }

  lemma PackPushed(before: string, heading: string, entries: string, rest: string)
    ensures before + heading + entries + rest == before + (heading + entries + rest)
  {
  }

  // The inner loop of the export, over the entries of one pack.
  method ExportEntries(c: Codec, entries: seq<EntryRecord>, before: string) returns (out: string)
    ensures out == before + EntriesText(c, entries)
  {
    hide EntryText;
    out := before;
    for i := 0 to |entries|
      invariant out + EntriesText(c, entries[i..]) == before + EntriesText(c, entries)
    {
      ghost var start := out;
      out := ExportEntry(c, entries[i], out);
      assert entries[i..][1..] == entries[i + 1..];
      Assoc(start, EntryText(c, entries[i]), EntriesText(c, entries[i + 1..]));
    }
    assert entries[|entries|..] == [];
    assert out + "" == out;
  }

  // One turn of that loop.
  method ExportEntry(c: Codec, entry: EntryRecord, before: string) returns (out: string)
    ensures out == before + EntryText(c, entry)
  {
    hide Header, Render, Lines, EntryText;
    out := before + ENTRY_BEGIN;
    out := out + " ";
    out := out + c.compact(Header(entry));
    out := out + (" " + COMMENT_END + "\n");
    ghost var head := out;
    out := out + Render(c, entry.value);
    if !EndsWith(out, "\n") {
      out := out + "\n";
    }
    LinesEnd(head, Render(c, entry.value));
    out := out + ENTRY_END;
    out := out + "\n\n";
    EntryPushed(c, before, entry);
  }

  lemma EntryPushed(c: Codec, start: string, e: EntryRecord)
    ensures start + ENTRY_BEGIN + " " + c.compact(Header(e)) + (" " + COMMENT_END + "\n") + Lines(Render(c, e.value)) + ENTRY_END + "\n\n"
            == start + EntryText(c, e)
  {
    hide Header, Lines, Render;
    var h, l := c.compact(Header(e)), Lines(Render(c, e.value));
    Joined(start, ENTRY_BEGIN, " ", h, " " + COMMENT_END + "\n", l, ENTRY_END, "\n\n");
    Joined("", ENTRY_BEGIN, " ", h, " " + COMMENT_END + "\n", l, ENTRY_END, "\n\n");
    assert ENTRY_BEGIN + " " + h + " " + COMMENT_END + "\n" == ENTRY_BEGIN + " " + h + (" " + COMMENT_END + "\n");
  }

  lemma Joined(s: string, a: string, b: string, c: string, d: string, e: string, f: string, g: string)
    ensures s + a + b + c + d + e + f + g == s + (a + b + c + d + e + f + g)
  {
    assert s + a + b + c == s + (a + b + c);
    assert s + (a + b + c) + d + e == s + (a + b + c + d + e);
  }

  lemma LinesEnd(head: string, s: string)
    requires EndsWith(head, "\n")
    ensures head + Lines(s) == if EndsWith(head + s, "\n") then head + s else head + s + "\n"
  {
    var t := head + s;
    assert EndsWith(t, "\n") <==> t[|t| - 1] == '\n';
    assert head + (s + "\n") == head + s + "\n";
    assert s != "" ==> t[|t| - 1] == s[|s| - 1];
    assert s == "" ==> t == head;
  }

  // ---------- import ----------

  function FindField(fields: seq<Field>, name: string): Option<Json> {
    if fields == [] then None else if fields[0].name == name then Some(fields[0].value) else FindField(fields[1..], name)
  }

  function Get(j: Json, name: string): Option<Json> {
    if j.Object? then FindField(j.fields, name) else None
  }

  function AsStr(j: Option<Json>): Option<string> {
    if j.Some? && j.value.Str? then Some(j.value.s) else None
  }

  function StrOr(j: Option<Json>, default: string): string {
    if AsStr(j).Some? then AsStr(j).value else default
  }

  function Strings(items: seq<Json>): seq<string> {
    if items == [] then [] else (if items[0].Str? then [items[0].s] else []) + Strings(items[1..])
  }

  // The text of a JSON value, without the code fence where there is one.
  function Unfenced(body: string): string {
    var trimmed := Trim(body);
    if StartsWith(trimmed, JSON_FENCE) && EndsWith(trimmed, FENCE) then
      Trim(StripEnd(StripStart(trimmed, JSON_FENCE), FENCE))
    else trimmed
  }

  function ReadValue(c: Codec, format: string, body: string): Result<EntryValue> {
    if format == "json" then
      var json :- c.parse(Unfenced(body));
      Ok(JsonValue(json))
    else Ok(Markdown(body))
  }

  function ReadEntry(c: Codec, metadata: Json, body: string): Result<Durable> {
    if AsStr(Get(metadata, "scope_kind")).None? then Err(Validation)
    else
      var kind :- KindOf(AsStr(Get(metadata, "scope_kind")).value);
      var scope :- Normalize(ScopeRef(kind, StrOr(Get(metadata, "scope_id"), "")));
      var value :- ReadValue(c, StrOr(Get(metadata, "format"), "markdown"), body);
      var tags := Get(metadata, "tags");
      var locked := Get(metadata, "locked");
      var more := Get(metadata, "metadata");
      Ok(Durable(scope, StrOr(Get(metadata, "pack_name"), DEFAULT_PACK_NAME), StrOr(Get(metadata, "key"), "entry"),
                 AsStr(Get(metadata, "title")), StrOr(Get(metadata, "kind"), "note"), value,
                 if tags.Some? && tags.value.Array? then Strings(tags.value.items) else [],
                 locked.Some? && locked.value.Bool? && locked.value.b,
                 if more.Some? then more.value else EMPTY_OBJECT))
  }

  // One entry cut out of the text behind its begin marker, and what follows it.
  datatype Cut = Cut(metadata: Json, body: string, rest: string)

  function CutEntry(c: Codec, text: string): (r: Result<Cut>)
    ensures r.Ok? ==> |r.value.rest| < |text|
  {
    match Find(text, COMMENT_END)
    case None => Err(Validation)
    case Some(k) =>
      var metadata :- c.parse(Trim(text[..k]));
      var rest := text[k + |COMMENT_END|..];
      match Find(rest, ENTRY_END)
      case None => Err(Validation)
      case Some(m) => Ok(Cut(metadata, Trim(rest[..m]), rest[m + |ENTRY_END|..]))
  }

  function ParseEntries(c: Codec, text: string): Result<seq<Durable>>
    decreases |text|
  {
    match Find(text, ENTRY_BEGIN)
    case None => Ok([])
    case Some(start) =>
      var cut :- CutEntry(c, text[start + |ENTRY_BEGIN|..]);
      var entry :- ReadEntry(c, cut.metadata, cut.body);
      var more :- ParseEntries(c, cut.rest);
      Ok([entry] + more)
  }

  function AddPack(packs: seq<PackName>, p: PackName): seq<PackName> {
    if p in packs then packs else packs + [p]
  }

  // The packs of the entries, in the order in which they first occur.
  function PacksOf(es: seq<Durable>): seq<PackName> {
    if es == [] then [] else
      var e := es[|es| - 1];
      AddPack(PacksOf(es[..|es| - 1]), PackName(e.scope, e.packName))
  }

  function ImportText(c: Codec, text: string): Result<Imported> {
    var entries :- ParseEntries(c, text);
    if entries == [] then Err(Validation) else Ok(Imported(PacksOf(entries), entries))
  }

  // What parsing yields from behind a begin marker on.
  function ReadBehind(c: Codec, text: string): Result<seq<Durable>> {
    var cut :- CutEntry(c, text);
    var entry :- ReadEntry(c, cut.metadata, cut.body);
    Prepend([entry], ParseEntries(c, cut.rest))
  }

  lemma ParseNext(c: Codec, text: string)
    ensures var start := Find(text, ENTRY_BEGIN);
            ParseEntries(c, text) == if start.None? then Ok([]) else ReadBehind(c, text[start.value + |ENTRY_BEGIN|..])
  {
    hide CutEntry, ReadEntry;
  }

  /** `import_markdown`: the loop moves `rest` past one entry at a time. */
  method Import(c: Codec, markdown: string) returns (r: Result<Imported>)
    ensures r == ImportText(c, markdown)
  {
    hide ParseEntries, ReadEntry, CutEntry, Find;
    var packs: seq<PackName>, entries: seq<Durable> := [], [];
    var rest := markdown;
    PrependNone(ParseEntries(c, rest));
    while true
      invariant ParseEntries(c, markdown) == Prepend(entries, ParseEntries(c, rest))
      invariant packs == PacksOf(entries)
      decreases |rest|
    {
      ParseNext(c, rest);
      var start := Find(rest, ENTRY_BEGIN);
      if start.None? {
        assert entries + [] == entries;
        break;
      }
      rest := rest[start.value + |ENTRY_BEGIN|..];
      CutSteps(c, rest);
      var endMarker := Find(rest, COMMENT_END);
      if endMarker.None? { return Err(Validation); }
      var metadata := c.parse(Trim(rest[..endMarker.value]));
      if metadata.Err? { return Err(metadata.error); }
      rest := rest[endMarker.value + |COMMENT_END|..];
      var bodyEnd := Find(rest, ENTRY_END);
      if bodyEnd.None? { return Err(Validation); }
      var body := Trim(rest[..bodyEnd.value]);
      rest := rest[bodyEnd.value + |ENTRY_END|..];
      var entry := ReadEntry(c, metadata.value, body);
      if entry.Err? { return Err(entry.error); }
      var pack := PackName(entry.value.scope, entry.value.packName);
      if pack !in packs {
        packs := packs + [pack];
      }
      PrependOne(entries, entry.value, ParseEntries(c, rest));
      assert (entries + [entry.value])[..|entries|] == entries;
      entries := entries + [entry.value];
    }
    if entries == [] { return Err(Validation); }
    return Ok(Imported(packs, entries));
  }

  // The steps of cutting an entry out of the text behind its marker.
  lemma CutSteps(c: Codec, text: string)
    ensures var k := Find(text, COMMENT_END);
            if k.None? then CutEntry(c, text) == Err(Validation)
            else
              var metadata := c.parse(Trim(text[..k.value]));
              if metadata.Err? then CutEntry(c, text) == Err(metadata.error)
              else
                var rest := text[k.value + |COMMENT_END|..];
                var m := Find(rest, ENTRY_END);
                CutEntry(c, text) == if m.None? then Err(Validation)
                                     else Ok(Cut(metadata.value, Trim(rest[..m.value]), rest[m.value + |ENTRY_END|..]))
  {
  }

  lemma PrependNone(r: Result<seq<Durable>>)
    ensures Prepend([], r) == r
  {
    if r.Ok? { assert [] + r.value == r.value; }
  }

  function Prepend(es: seq<Durable>, r: Result<seq<Durable>>): Result<seq<Durable>> {
    if r.Ok? then Ok(es + r.value) else r
  }

  lemma PrependOne(es: seq<Durable>, e: Durable, r: Result<seq<Durable>>)
    ensures Prepend(es, Prepend([e], r)) == Prepend(es + [e], r)
  {
    if r.Ok? { assert es + ([e] + r.value) == es + [e] + r.value; }
  }
}
