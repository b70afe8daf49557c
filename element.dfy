/** The element record built by every parser and consumed by the serializer
    and the formatter (src/parser/markdown-element.js). */
module Element {
  import opened Wrappers

  /** The closed set of element type tags. The builders write their tags as
      string literals ('footnote', 'link-ref', ...) while the serializer
      switches on the type constants; this model assumes the two coincide. */
  datatype Tag =
    | Heading | Paragraph | Break | Html | Hr | Blockquote | Image | LinkRef
    | Footnote | Table | TaskItem | ListItem | ListStart | ListEnd | Code

  /** The payload of a table element. */
  datatype TableContent = TableContent(headers: seq<string>, aligns: seq<string>, rows: seq<seq<string>>)

  /** `content` is a string for every element except tables. */
  datatype Content = Text(text: string) | TableBody(table: TableContent)

  /** The optional metadata argument of the constructor; `None` is an absent key. */
  datatype Meta = Meta(
    level: Option<nat>, marker: Option<string>, checked: Option<bool>,
    lang: Option<string>, url: Option<string>, title: Option<string>, id: Option<string>)

  const NoMeta := Meta(None, None, None, None, None, None, None)

  datatype Element = Element(
    tag: Tag, content: Content,
    level: Option<nat>, marker: Option<string>, checked: Option<bool>,
    lang: Option<string>, url: Option<string>, title: Option<string>, id: Option<string>)

  /** JavaScript truthiness of the metadata values. */
  predicate TruthyNat(o: Option<nat>) { o.Some? && o.value != 0 }
  predicate TruthyString(o: Option<string>) { o.Some? && o.value != [] }
  predicate TruthyBool(o: Option<bool>) { o.Some? && o.value }

  /** Every optional field that is present holds a truthy value, as after construction. */
  predicate Normalized(e: Element) {
    (e.level.None? || TruthyNat(e.level)) &&
    (e.marker.None? || TruthyString(e.marker)) &&
    (e.checked.None? || TruthyBool(e.checked)) &&
    (e.lang.None? || TruthyString(e.lang)) &&
    (e.url.None? || TruthyString(e.url)) &&
    (e.title.None? || TruthyString(e.title)) &&
    (e.id.None? || TruthyString(e.id))
  }

  /** Every truthy metadata value is stored, and every stored value came from the metadata. */
  predicate Agrees(e: Element, meta: Meta) {
    (TruthyNat(meta.level) ==> e.level == meta.level) && (e.level.Some? ==> e.level == meta.level) &&
    (TruthyString(meta.marker) ==> e.marker == meta.marker) && (e.marker.Some? ==> e.marker == meta.marker) &&
    (TruthyBool(meta.checked) ==> e.checked == meta.checked) && (e.checked.Some? ==> e.checked == meta.checked) &&
    (TruthyString(meta.lang) ==> e.lang == meta.lang) && (e.lang.Some? ==> e.lang == meta.lang) &&
    (TruthyString(meta.url) ==> e.url == meta.url) && (e.url.Some? ==> e.url == meta.url) &&
    (TruthyString(meta.title) ==> e.title == meta.title) && (e.title.Some? ==> e.title == meta.title) &&
    (TruthyString(meta.id) ==> e.id == meta.id) && (e.id.Some? ==> e.id == meta.id)
  }

  function OrNullNat(o: Option<nat>): Option<nat> { if TruthyNat(o) then o else None }
  function OrNullString(o: Option<string>): Option<string> { if TruthyString(o) then o else None }
  function OrNullBool(o: Option<bool>): Option<bool> { if TruthyBool(o) then o else None }

  /** `new MarkdownElement(type, content, metadata)`: `type` and `content` are
      stored as given, each optional field is `metadata.x || null`. */
  function New(tag: Tag, content: Content, meta: Meta): (e: Element)
    ensures e.tag == tag && e.content == content
    ensures Normalized(e) && Agrees(e, meta)
  {
    Element(tag, content,
      OrNullNat(meta.level), OrNullString(meta.marker), OrNullBool(meta.checked),
      OrNullString(meta.lang), OrNullString(meta.url), OrNullString(meta.title), OrNullString(meta.id))
  }

  /** The metadata an element would be rebuilt from. */
  function MetaOf(e: Element): Meta {
    Meta(e.level, e.marker, e.checked, e.lang, e.url, e.title, e.id)
  }

  /** `Normalized` and `Agrees` pin the constructed element down completely. */
  lemma NewIsDetermined(e: Element, tag: Tag, content: Content, meta: Meta)
    requires e.tag == tag && e.content == content && Normalized(e) && Agrees(e, meta)
    ensures e == New(tag, content, meta)
  {
  }

  /** Rebuilding a constructed element from its own fields changes nothing. */
  lemma NewOfNormalized(e: Element)
    requires Normalized(e)
    ensures New(e.tag, e.content, MetaOf(e)) == e
  {
  }

  /** Without metadata every optional field is absent. */
  lemma NoMetaAllAbsent(tag: Tag, content: Content)
    ensures var e := New(tag, content, NoMeta);
      e.level.None? && e.marker.None? && e.checked.None? && e.lang.None? &&
      e.url.None? && e.title.None? && e.id.None?
  {
  }

  /** Level 0, `checked = false` and `lang = ''` cannot be told apart from absent fields. */
  lemma FalsyIsAbsent(tag: Tag, content: Content, meta: Meta)
    ensures New(tag, content, meta.(level := Some(0))) == New(tag, content, meta.(level := None))
    ensures New(tag, content, meta.(checked := Some(false))) == New(tag, content, meta.(checked := None))
    ensures New(tag, content, meta.(lang := Some(""))) == New(tag, content, meta.(lang := None))
  {
  }

  /** What a template literal `${x}` prints for an optional string field. */
  function Show(o: Option<string>): string {
    if o.Some? then o.value else "null"
  }

  /** What a template literal prints for the content: a table payload is an object. */
  function ContentText(c: Content): string {
    if c.Text? then c.text else "[object Object]"
  }

  /** `n || 0`-style reading of an optional level (`' '.repeat(null)` is `''`). */
  function LevelOrZero(e: Element): nat {
    if e.level.Some? then e.level.value else 0
  }

  function LevelMeta(n: nat): Meta { NoMeta.(level := Some(n)) }
}
