/** The event-driven sitemap parser (src/lib/sitemap-parser.ts). The XML
    tokenizer is not modelled: the machine is fed the events a SAX parser emits,
    and is compared with a reading of the document as a tree. */
module SitemapParser {
  import opened Basics
  import opened SitemapFetch

  datatype Event = Doctype | Open(name: string) | Text(text: string) | Close(name: string) | SaxError(message: string)

  datatype Kind = Urlset | SitemapIndex

  datatype ParseFailure = XmlError | DtdRejected | UnknownRoot

  datatype Fields = Fields(
    loc: Option<string>, lastmod: Option<string>, priority: Option<string>, changefreq: Option<string>)

  datatype Parsed = Parsed(kind: Kind, urls: seq<Entry>, truncated: bool)

  datatype Machine = Machine(
    kind: Option<Kind>, urls: seq<Entry>, truncated: bool,
    current: Option<Fields>, textBuffer: string, failure: Option<ParseFailure>)

  function Start(): Machine { Machine(None, [], false, None, "", None) }

  /** What String.prototype.trim removes. */
  predicate IsSpace(c: char) {
    || '\t' <= c <= '\r' || c == ' ' || c == '\U{00A0}' || c == '\U{1680}' || '\U{2000}' <= c <= '\U{200A}'
    || c == '\U{2028}' || c == '\U{2029}' || c == '\U{202F}' || c == '\U{205F}' || c == '\U{3000}' || c == '\U{FEFF}'
  }

  function Trim(s: string): string
    decreases |s|
  {
    if s == "" then ""
    else if IsSpace(s[0]) then Trim(s[1..])
    else if IsSpace(Last(s)) then Trim(Front(s))
    else s
  }

  predicate IsField(name: string) { name == "loc" || name == "lastmod" || name == "priority" || name == "changefreq" }

  predicate EndsEntry(name: string) { name == "url" || name == "sitemap" }

  function WithField(f: Fields, name: string, value: string): Fields {
    if name == "loc" then f.(loc := Some(value))
    else if name == "lastmod" then f.(lastmod := Some(value))
    else if name == "priority" then f.(priority := Some(value))
    else f.(changefreq := Some(value))
  }

  function AsEntry(f: Fields): Entry
    requires f.loc.Some?
  {
    Entry(f.loc.value, f.lastmod, f.priority, f.changefreq)
  }

  function OnOpen(m: Machine, name: string, maxUrls: int): Machine {
    if m.failure.Some? then m
    else if m.kind.None? then
      if name == "urlset" then m.(kind := Some(Urlset))
      else if name == "sitemapindex" then m.(kind := Some(SitemapIndex))
      else m.(failure := Some(UnknownRoot))
    else if (m.kind.value.Urlset? && name == "url") || (m.kind.value.SitemapIndex? && name == "sitemap") then
      if |m.urls| >= maxUrls then m.(truncated := true) else m.(current := Some(Fields(None, None, None, None)))
    else if m.current.Some? && IsField(name) then m.(textBuffer := "")
    else m
  }

  function OnText(m: Machine, text: string): Machine {
    if m.failure.Some? then m else m.(textBuffer := m.textBuffer + text)
  }

  function OnClose(m: Machine, name: string, maxUrls: int): Machine {
    if m.failure.Some? then m
    else if m.current.Some? && IsField(name) then
      var value := Trim(m.textBuffer);
      m.(textBuffer := "", current := if |value| > 0 then Some(WithField(m.current.value, name, value)) else m.current)
    else if EndsEntry(name) && m.current.Some? then
      var f := m.current.value;
      m.(current := None, urls := if f.loc.Some? && |m.urls| < maxUrls then m.urls + [AsEntry(f)] else m.urls)
    else m
  }

  function Step(m: Machine, e: Event, maxUrls: int): Machine {
    match e
    case Doctype => m.(failure := Some(DtdRejected))
    case Open(name) => OnOpen(m, name, maxUrls)
    case Text(text) => OnText(m, text)
    case Close(name) => OnClose(m, name, maxUrls)
    case SaxError(_) => if m.failure.Some? then m else m.(failure := Some(XmlError))
  }

  function Run(m: Machine, events: seq<Event>, maxUrls: int): Machine
    decreases events
  {
    if events == [] then m else Run(Step(m, events[0], maxUrls), events[1..], maxUrls)
  }

  function Finish(m: Machine): Result<Parsed, ParseFailure> {
    if m.failure.Some? then Err(m.failure.value)
    else if m.kind.None? then Err(UnknownRoot)
    else Ok(Parsed(m.kind.value, m.urls, m.truncated))
  }

  function Parse(events: seq<Event>, maxUrls: int): Result<Parsed, ParseFailure> {
    Finish(Run(Start(), events, maxUrls))
  }

  /** The parser with its event handlers. */
  class Parser {
    const maxUrls: int
    var kind: Option<Kind>
    var urls: seq<Entry>
    var truncated: bool
    var current: Option<Fields>
    var textBuffer: string
    var failure: Option<ParseFailure>

    function Now(): Machine
      reads this
    {
      Machine(kind, urls, truncated, current, textBuffer, failure)
    }

    constructor (maxUrls: int)
      ensures this.maxUrls == maxUrls && Now() == Start()
    {
      this.maxUrls := maxUrls;
      kind, urls, truncated, current, textBuffer, failure := None, [], false, None, "", None;
    }

    method HandleOpen(name: string)
      modifies this
      ensures Now() == OnOpen(old(Now()), name, maxUrls)
    {
      if failure.Some? { return; }
      if kind.None? {
        if name == "urlset" { kind := Some(Urlset); return; }
        if name == "sitemapindex" { kind := Some(SitemapIndex); return; }
        failure := Some(UnknownRoot);
        return;
      }
      if (kind.value.Urlset? && name == "url") || (kind.value.SitemapIndex? && name == "sitemap") {
        if |urls| >= maxUrls {
          truncated := true;
          return;
        }
        current := Some(Fields(None, None, None, None));
        return;
      }
      if current.Some? && IsField(name) {
        textBuffer := "";
      }
    }

    method HandleText(text: string)
      modifies this
      ensures Now() == OnText(old(Now()), text)
    {
      if failure.Some? { return; }
      textBuffer := textBuffer + text;
    }

    method HandleClose(name: string)
      modifies this
      ensures Now() == OnClose(old(Now()), name, maxUrls)
    {
      if failure.Some? { return; }
      if current.Some? && IsField(name) {
        var value := Trim(textBuffer);
        textBuffer := "";
        if |value| > 0 {
          current := Some(WithField(current.value, name, value));
        }
        return;
      }
      if (name == "url" || name == "sitemap") && current.Some? {
        if current.value.loc.Some? && |urls| < maxUrls {
          urls := urls + [AsEntry(current.value)];
        }
        current := None;
      }
    }

    method Handle(e: Event)
      modifies this
      ensures Now() == Step(old(Now()), e, maxUrls)
    {
      match e {
        case Doctype => failure := Some(DtdRejected);
        case Open(name) => HandleOpen(name);
        case Text(text) => HandleText(text);
        case Close(name) => HandleClose(name);
        case SaxError(_) => if failure.None? { failure := Some(XmlError); }
      }
    }

    method ParseSitemapXml(events: seq<Event>) returns (r: Result<Parsed, ParseFailure>)
      requires Now() == Start()
      modifies this
      ensures r == Parse(events, maxUrls)
    {
      for i := 0 to |events|
        invariant Run(Now(), events[i..], maxUrls) == Run(Start(), events, maxUrls)
      {
        assert events[i..][0] == events[i] && events[i..][1..] == events[i + 1..];
        Handle(events[i]);
      }
      if failure.Some? { return Err(failure.value); }
      if kind.None? { return Err(UnknownRoot); }
      r := Ok(Parsed(kind.value, urls, truncated));
    }
  }

  // ---- Documents as trees -------------------------------------------------------

  /** `Chars` is one piece of text as written; `Silent` is a comment, a CDATA
      section or a processing instruction, which the parser does not listen to
      but which ends a piece of text. */
  datatype Xml = Chars(text: string) | Silent | Elem(name: string, kids: seq<Xml>)

  /** The tokenizer is told to trim: each piece of text arrives trimmed, and an
      empty one not at all. */
  function TextEvents(text: string): seq<Event> {
    if Trim(text) == "" then [] else [Text(Trim(text))]
  }

  function EntryName(k: Kind): string { if k.Urlset? then "url" else "sitemap" }

  function RootName(k: Kind): string { if k.Urlset? then "urlset" else "sitemapindex" }

  predicate NamesField(name: string) { name in ["loc", "lastmod", "priority", "changefreq"] }

  predicate NamesEntry(name: string) { name in ["url", "sitemap"] }

  function EventsOf(x: Xml): seq<Event>
    decreases x, 1
  {
    match x
    case Chars(text) => TextEvents(text)
    case Silent => []
    case Elem(name, kids) => [Open(name)] + EventsAll(kids) + [Close(name)]
  }

  function EventsAll(xs: seq<Xml>): seq<Event>
    decreases xs, 0
  {
    if xs == [] then [] else EventsOf(xs[0]) + EventsAll(xs[1..])
  }

  /** Anything without fields or entries in it: what a field may contain. */
  predicate FieldContent(xs: seq<Xml>)
    decreases xs
  {
    xs == [] ||
    ((xs[0].Elem? ==> !NamesField(xs[0].name) && !NamesEntry(xs[0].name) && FieldContent(xs[0].kids))
     && FieldContent(xs[1..]))
  }

  /** What an entry may contain: fields at any depth, not inside one another, and
      no entries. */
  predicate EntryContent(xs: seq<Xml>)
    decreases xs
  {
    xs == [] ||
    ((xs[0].Elem? ==> !NamesEntry(xs[0].name)
                      && if NamesField(xs[0].name) then FieldContent(xs[0].kids) else EntryContent(xs[0].kids))
     && EntryContent(xs[1..]))
  }

  /** What a document may contain: entries at any depth, not inside one another. */
  predicate DocContent(k: Kind, xs: seq<Xml>)
    decreases xs
  {
    xs == [] ||
    ((xs[0].Elem? ==> if xs[0].name == EntryName(k) then EntryContent(xs[0].kids) else DocContent(k, xs[0].kids))
     && DocContent(k, xs[1..]))
  }

  /** The text of a field's content. */
  function TextOf(xs: seq<Xml>): string
    decreases xs, 1
  {
    if xs == [] then "" else HeadText(xs) + TextOf(xs[1..])
  }

  function HeadText(xs: seq<Xml>): string
    requires xs != []
    decreases xs, 0
  {
    match xs[0]
    case Chars(text) => Trim(text)
    case Silent => ""
    case Elem(_, kids) => TextOf(kids)
  }

  /** The fields of an entry in document order, each with its trimmed text. */
  function Values(xs: seq<Xml>): seq<(string, string)>
    decreases xs, 1
  {
    if xs == [] then [] else HeadValues(xs) + Values(xs[1..])
  }

  function HeadValues(xs: seq<Xml>): seq<(string, string)>
    requires xs != []
    decreases xs, 0
  {
    match xs[0]
    case Chars(_) => []
    case Silent => []
    case Elem(name, kids) => if NamesField(name) then [(name, Trim(TextOf(kids)))] else Values(kids)
  }

  function LastNonEmpty(vs: seq<(string, string)>, name: string): Option<string> {
    if vs == [] then None
    else if Last(vs).0 == name && Last(vs).1 != "" then Some(Last(vs).1)
    else LastNonEmpty(Front(vs), name)
  }

  /** An entry as the document states it: for each field its last non-empty value. */
  function FieldsFrom(vs: seq<(string, string)>): Fields {
    Fields(LastNonEmpty(vs, "loc"), LastNonEmpty(vs, "lastmod"), LastNonEmpty(vs, "priority"), LastNonEmpty(vs, "changefreq"))
  }

  /** The entries of a document in order. */
  function Entries(k: Kind, xs: seq<Xml>): seq<Fields>
    decreases xs, 1
  {
    if xs == [] then [] else HeadEntries(k, xs) + Entries(k, xs[1..])
  }

  function HeadEntries(k: Kind, xs: seq<Xml>): seq<Fields>
    requires xs != []
    decreases xs, 0
  {
    match xs[0]
    case Chars(_) => []
    case Silent => []
    case Elem(name, kids) => if name == EntryName(k) then [FieldsFrom(Values(kids))] else Entries(k, kids)
  }

  function WithLoc(es: seq<Fields>): seq<Entry> {
    if es == [] then []
    else
      WithLoc(Front(es)) +
      match Last(es).loc
      case None => []
      case Some(loc) => [Entry(loc, Last(es).lastmod, Last(es).priority, Last(es).changefreq)]
  }

  /** Collecting entries one by one up to the limit. */
  function Collected(es: seq<Fields>, maxUrls: int): (seq<Entry>, bool) {
    if es == [] then ([], false)
    else
      var (urls, truncated) := Collected(Front(es), maxUrls);
      if |urls| >= maxUrls then (urls, true)
      else if Last(es).loc.Some? then (urls + [AsEntry(Last(es))], truncated)
      else (urls, truncated)
  }

  // ---- The machine reads the tree -------------------------------------------------

  lemma {:induction false} RunAppend(m: Machine, a: seq<Event>, b: seq<Event>, maxUrls: int)
    ensures Run(m, a + b, maxUrls) == Run(Run(m, a, maxUrls), b, maxUrls)
    decreases a
  {
    if a == [] {
      assert a + b == b;
    } else {
      assert (a + b)[0] == a[0] && (a + b)[1..] == a[1..] + b;
      RunAppend(Step(m, a[0], maxUrls), a[1..], b, maxUrls);
    }
  }

  lemma RunOne(m: Machine, e: Event, maxUrls: int)
    ensures Run(m, [e], maxUrls) == Step(m, e, maxUrls)
  {
    assert [e][1..] == [];
  }

  /** Running an element is opening it, running its content and closing it. */
  lemma RunElem(m: Machine, name: string, kids: seq<Xml>, maxUrls: int)
    ensures Run(m, EventsOf(Elem(name, kids)), maxUrls)
            == OnClose(Run(OnOpen(m, name, maxUrls), EventsAll(kids), maxUrls), name, maxUrls)
  {
    RunAppend(m, [Open(name)] + EventsAll(kids), [Close(name)], maxUrls);
    RunAppend(m, [Open(name)], EventsAll(kids), maxUrls);
    RunOne(m, Open(name), maxUrls);
    RunOne(Run(OnOpen(m, name, maxUrls), EventsAll(kids), maxUrls), Close(name), maxUrls);
  }

  /** Running a nonempty content is running its head and then its tail. */
  lemma RunCons(m: Machine, xs: seq<Xml>, maxUrls: int)
    requires xs != []
    ensures Run(m, EventsAll(xs), maxUrls) == Run(Run(m, EventsOf(xs[0]), maxUrls), EventsAll(xs[1..]), maxUrls)
  {
    RunAppend(m, EventsOf(xs[0]), EventsAll(xs[1..]), maxUrls);
  }

  /** Running a piece of text appends it, trimmed. */
  lemma RunChars(m: Machine, text: string, maxUrls: int)
    ensures Run(m, EventsOf(Chars(text)), maxUrls) == OnText(m, Trim(text))
  {
    assert m.textBuffer + "" == m.textBuffer;
    RunOne(m, Text(Trim(text)), maxUrls);
  }

  ghost predicate Reading(m: Machine, k: Kind) { m.failure.None? && m.kind == Some(k) }

  function Gathered(m: Machine, text: string): Machine { m.(textBuffer := m.textBuffer + text) }

  /** Inside a field the machine gathers the text. */
  lemma {:induction false} ReadsField(m: Machine, k: Kind, xs: seq<Xml>, maxUrls: int)
    requires Reading(m, k) && FieldContent(xs)
    ensures Run(m, EventsAll(xs), maxUrls) == Gathered(m, TextOf(xs))
    decreases xs, 1
  {
    if xs == [] {
      assert m.textBuffer + "" == m.textBuffer;
    } else {
      RunCons(m, xs, maxUrls);
      ReadsFieldHead(m, k, xs, maxUrls);
      ReadsField(Gathered(m, HeadText(xs)), k, xs[1..], maxUrls);
      assert m.textBuffer + (HeadText(xs) + TextOf(xs[1..])) == m.textBuffer + HeadText(xs) + TextOf(xs[1..]);
    }
  }

  lemma {:induction false} ReadsFieldHead(m: Machine, k: Kind, xs: seq<Xml>, maxUrls: int)
    requires Reading(m, k) && xs != [] && FieldContent(xs)
    ensures Run(m, EventsOf(xs[0]), maxUrls) == Gathered(m, HeadText(xs))
    decreases xs, 0
  {
    match xs[0]
    case Chars(text) => RunChars(m, text, maxUrls);
    case Silent => assert m.textBuffer + "" == m.textBuffer;
    case Elem(name, kids) =>
      RunElem(m, name, kids, maxUrls);
      ReadsField(m, k, kids, maxUrls);
  }

  /** The machine up to its text buffer. */
  function Core(m: Machine): Machine { m.(textBuffer := "") }

  lemma FieldsFromAppend(vs: seq<(string, string)>, name: string, value: string)
    requires IsField(name)
    ensures FieldsFrom(vs + [(name, value)]) == if value != "" then WithField(FieldsFrom(vs), name, value) else FieldsFrom(vs)
  {
    assert Front(vs + [(name, value)]) == vs;
  }

  function EntryAfter(m: Machine, vs: seq<(string, string)>): Machine {
    Core(m.(current := if m.current.Some? then Some(FieldsFrom(vs)) else None))
  }

  /** Inside an entry the machine keeps the last non-empty value of every field;
      outside one it ignores fields. */
  lemma {:induction false} ReadsEntry(m: Machine, k: Kind, xs: seq<Xml>, done: seq<(string, string)>, maxUrls: int)
    requires Reading(m, k) && EntryContent(xs)
    requires m.current.Some? ==> m.current.value == FieldsFrom(done)
    ensures Core(Run(m, EventsAll(xs), maxUrls)) == EntryAfter(m, done + Values(xs))
    decreases xs, 1
  {
    if xs == [] {
      assert done + [] == done;
    } else {
      RunCons(m, xs, maxUrls);
      ReadsEntryHead(m, k, xs, done, maxUrls);
      ReadsEntry(Run(m, EventsOf(xs[0]), maxUrls), k, xs[1..], done + HeadValues(xs), maxUrls);
      assert done + (HeadValues(xs) + Values(xs[1..])) == done + HeadValues(xs) + Values(xs[1..]);
    }
  }

  lemma {:induction false} ReadsEntryHead(m: Machine, k: Kind, xs: seq<Xml>, done: seq<(string, string)>, maxUrls: int)
    requires Reading(m, k) && xs != [] && EntryContent(xs)
    requires m.current.Some? ==> m.current.value == FieldsFrom(done)
    ensures Core(Run(m, EventsOf(xs[0]), maxUrls)) == EntryAfter(m, done + HeadValues(xs))
    decreases xs, 0
  {
    match xs[0]
    case Chars(text) =>
      RunChars(m, text, maxUrls);
      assert done + [] == done;
    case Silent =>
      assert done + [] == done;
    case Elem(name, kids) =>
      RunElem(m, name, kids, maxUrls);
      var inside := OnOpen(m, name, maxUrls);
      if IsField(name) {
        ReadsField(inside, k, kids, maxUrls);
        FieldsFromAppend(done, name, Trim(TextOf(kids)));
        assert "" + TextOf(kids) == TextOf(kids);
      } else {
        ReadsEntry(inside, k, kids, done, maxUrls);
      }
  }

  /** Between entries, having collected from `done`. */
  ghost predicate Between(m: Machine, k: Kind, done: seq<Fields>, maxUrls: int) {
    Reading(m, k) && m.current.None? && (m.urls, m.truncated) == Collected(done, maxUrls)
  }

  lemma EntriesCons(k: Kind, xs: seq<Xml>, done: seq<Fields>)
    requires xs != []
    ensures done + Entries(k, xs) == (done + HeadEntries(k, xs)) + Entries(k, xs[1..])
  {
  }

  /** Outside entries the machine collects the entries it meets. */
  lemma {:induction false} ReadsDocument(m: Machine, k: Kind, xs: seq<Xml>, done: seq<Fields>, maxUrls: int)
    requires Between(m, k, done, maxUrls) && DocContent(k, xs)
    ensures Between(Run(m, EventsAll(xs), maxUrls), k, done + Entries(k, xs), maxUrls)
    decreases xs, 1
  {
    if xs == [] {
      assert done + [] == done;
    } else {
      var after := Run(m, EventsOf(xs[0]), maxUrls);
      RunCons(m, xs, maxUrls);
      ReadsDocumentHead(m, k, xs, done, maxUrls);
      ReadsDocument(after, k, xs[1..], done + HeadEntries(k, xs), maxUrls);
      EntriesCons(k, xs, done);
    }
  }

  lemma {:induction false} ReadsDocumentHead(m: Machine, k: Kind, xs: seq<Xml>, done: seq<Fields>, maxUrls: int)
    requires Between(m, k, done, maxUrls) && xs != [] && DocContent(k, xs)
    ensures Between(Run(m, EventsOf(xs[0]), maxUrls), k, done + HeadEntries(k, xs), maxUrls)
    decreases xs, 0
  {
    match xs[0]
    case Chars(text) =>
      RunChars(m, text, maxUrls);
      assert done + [] == done;
    case Silent =>
      assert done + [] == done;
    case Elem(name, kids) =>
      RunElem(m, name, kids, maxUrls);
      if name == EntryName(k) {
        ReadsOneEntry(m, k, kids, done, maxUrls);
      } else {
        ReadsDocument(m, k, kids, done, maxUrls);
      }
  }

  lemma CollectedSnoc(done: seq<Fields>, f: Fields, maxUrls: int)
    ensures Collected(done + [f], maxUrls) ==
      var (urls, truncated) := Collected(done, maxUrls);
      if |urls| >= maxUrls then (urls, true)
      else if f.loc.Some? then (urls + [AsEntry(f)], truncated)
      else (urls, truncated)
  {
    assert Front(done + [f]) == done;
  }

  /** Closing an entry collects what it read. */
  lemma EntryCloses(m: Machine, ended: Machine, k: Kind, f: Fields, done: seq<Fields>, maxUrls: int)
    requires Between(m, k, done, maxUrls) && Reading(ended, k) && ended.urls == m.urls
    requires ended.truncated == (m.truncated || |m.urls| >= maxUrls)
    requires ended.current == if |m.urls| >= maxUrls then None else Some(f)
    ensures Between(OnClose(ended, EntryName(k), maxUrls), k, done + [f], maxUrls)
  {
    CollectedSnoc(done, f, maxUrls);
    assert !IsField(EntryName(k)) && EndsEntry(EntryName(k));
  }

  lemma ReadsOneEntry(m: Machine, k: Kind, kids: seq<Xml>, done: seq<Fields>, maxUrls: int)
    requires Between(m, k, done, maxUrls) && EntryContent(kids)
    ensures Between(OnClose(Run(OnOpen(m, EntryName(k), maxUrls), EventsAll(kids), maxUrls), EntryName(k), maxUrls),
                    k, done + [FieldsFrom(Values(kids))], maxUrls)
  {
    var inside := OnOpen(m, EntryName(k), maxUrls);
    ReadsEntry(inside, k, kids, [], maxUrls);
    assert [] + Values(kids) == Values(kids);
    var ended := Run(inside, EventsAll(kids), maxUrls);
    assert Core(ended) == EntryAfter(inside, Values(kids));
    EntryCloses(m, ended, k, FieldsFrom(Values(kids)), done, maxUrls);
  }

  lemma {:induction false} CollectedMeans(es: seq<Fields>, maxUrls: int)
    ensures Collected(es, maxUrls).0 == WithLoc(es)[..Min(|WithLoc(es)|, Max(0, maxUrls))]
    ensures Collected(es, maxUrls).1 <==> exists i :: 0 <= i < |es| && |WithLoc(es[..i])| >= maxUrls
  {
    if es != [] {
      CollectedMeans(Front(es), maxUrls);
      var n := |es| - 1;
      assert forall i :: 0 <= i < n ==> es[..i] == Front(es)[..i];
      assert es[..n] == Front(es);
    }
  }

  function DocumentEvents(k: Kind, kids: seq<Xml>): seq<Event> {
    EventsOf(Elem(RootName(k), kids))
  }

  /** Fed the events of any well-formed urlset or sitemapindex, the parser
      returns the first maxUrls entries that bear a loc, each with the last
      non-empty trimmed value of every field, and reports truncation exactly when
      an entry opens after maxUrls were collected. */
  lemma ParsesAnyDocument(k: Kind, kids: seq<Xml>, maxUrls: int)
    requires DocContent(k, kids)
    ensures var r := Parse(DocumentEvents(k, kids), maxUrls);
            var es := Entries(k, kids);
            && r.Ok? && r.value.kind == k
            && r.value.urls == WithLoc(es)[..Min(|WithLoc(es)|, Max(0, maxUrls))]
            && (r.value.truncated <==> exists i :: 0 <= i < |es| && |WithLoc(es[..i])| >= maxUrls)
  {
    RunElem(Start(), RootName(k), kids, maxUrls);
    var m := OnOpen(Start(), RootName(k), maxUrls);
    ReadsDocument(m, k, kids, [], maxUrls);
    assert [] + Entries(k, kids) == Entries(k, kids);
    CollectedMeans(Entries(k, kids), maxUrls);
  }

  // ---- How a parse fails -----------------------------------------------------------

  /** The first opening tag or tokenizer error of a stream. */
  function FirstDecisive(events: seq<Event>): Option<Event> {
    if events == [] then None
    else if events[0].Open? || events[0].SaxError? then Some(events[0])
    else FirstDecisive(events[1..])
  }

  predicate HasError(events: seq<Event>) {
    events != [] && (events[0].SaxError? || HasError(events[1..]))
  }

  function KindNamed(name: string): Option<Kind> {
    if name == "urlset" then Some(Urlset) else if name == "sitemapindex" then Some(SitemapIndex) else None
  }

  lemma {:induction false} RunFailure(m: Machine, events: seq<Event>, maxUrls: int)
    ensures var t := Run(m, events, maxUrls);
            if Doctype in events then t.failure == Some(DtdRejected)
            else if m.failure.Some? then t.failure == m.failure
            else if m.kind.Some? then
              if HasError(events) then t.failure == Some(XmlError) else t.failure == None && t.kind == m.kind
            else
              match FirstDecisive(events)
              case None => t.failure == None && t.kind == None
              case Some(Open(name)) =>
                if KindNamed(name).None? then t.failure == Some(UnknownRoot)
                else if HasError(events) then t.failure == Some(XmlError)
                else t.failure == None && t.kind == KindNamed(name)
              case Some(_) => t.failure == Some(XmlError)
    decreases events
  {
    if events != [] {
      RunFailure(Step(m, events[0], maxUrls), events[1..], maxUrls);
      assert events == [events[0]] + events[1..];
    }
  }

  /** Whether a parse fails, with which reason, and the kind it finds: a document
      type declaration anywhere wins over all else; then what comes first, a
      tokenizer error or an unknown root element; then a later tokenizer error. */
  lemma FailsExactly(events: seq<Event>, maxUrls: int)
    ensures var r := Parse(events, maxUrls);
            if Doctype in events then r == Err(DtdRejected)
            else
              match FirstDecisive(events)
              case None => r == Err(UnknownRoot)
              case Some(Open(name)) =>
                if KindNamed(name).None? then r == Err(UnknownRoot)
                else if HasError(events) then r == Err(XmlError)
                else r.Ok? && r.value.kind == KindNamed(name).value
              case Some(_) => r == Err(XmlError)
  {
    RunFailure(Start(), events, maxUrls);
  }

  /** Trimming cuts white space off both ends and nothing else. */
  lemma {:induction false} TrimExactly(s: string) returns (a: string, b: string)
    ensures s == a + Trim(s) + b
    ensures (forall i :: 0 <= i < |a| ==> IsSpace(a[i])) && forall i :: 0 <= i < |b| ==> IsSpace(b[i])
    ensures Trim(s) != "" ==> !IsSpace(Trim(s)[0]) && !IsSpace(Last(Trim(s)))
    decreases |s|
  {
    if s == "" {
      a, b := "", "";
    } else if IsSpace(s[0]) {
      a, b := TrimExactly(s[1..]);
      a := [s[0]] + a;
      assert s == [s[0]] + s[1..];
    } else if IsSpace(Last(s)) {
      a, b := TrimExactly(Front(s));
      b := b + [Last(s)];
      assert s == Front(s) + [Last(s)];
    } else {
      a, b := "", "";
    }
  }
}
