/** Option defaulting performed by `New` (exporter.go). */
module Config {
  import opened Wrappers
  import opened Protocol

  const DefaultDocType := "_doc"
  const DefaultScroll := "1m"
  const DefaultBatch := 5000

  /** The effective options: an empty type, an empty keep-alive and a zero page
      size are replaced by their defaults; everything else is kept. */
  function WithDefaults(raw: Options): (eff: Options)
    ensures eff.host == raw.host && eff.index == raw.index && eff.query == raw.query
    ensures raw.docType == "" ==> eff.docType == DefaultDocType
    ensures raw.docType != "" ==> eff.docType == raw.docType
    ensures raw.scroll == "" ==> eff.scroll == DefaultScroll
    ensures raw.scroll != "" ==> eff.scroll == raw.scroll
    ensures raw.batch == 0 ==> eff.batch == DefaultBatch
    ensures raw.batch != 0 ==> eff.batch == raw.batch
  {
    var o := if raw.docType == "" then raw.(docType := DefaultDocType) else raw;
    var o := if o.scroll == "" then o.(scroll := DefaultScroll) else o;
    if o.batch == 0 then o.(batch := DefaultBatch) else o
  }

  /** Defaulting leaves no field empty, and applying it again changes nothing. */
  lemma WithDefaultsSettles(raw: Options)
    ensures var eff := WithDefaults(raw);
      eff.docType != "" && eff.scroll != "" && eff.batch != 0 && WithDefaults(eff) == eff
  {
  }

  /** The handler actually used: the caller's, or one that always answers nil. */
  function OrNoop(h: Option<Handler>): (r: Handler)
    ensures h.None? ==> forall doc, idx, total :: r(doc, idx, total) == None
    ensures h.Some? ==> forall doc, idx, total :: r(doc, idx, total) == h.value(doc, idx, total)
  {
    match h
    case None => (doc: Bytes, idx: int, total: int) => None
    case Some(f) => f
  }
}
