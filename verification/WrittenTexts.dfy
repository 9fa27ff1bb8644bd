/** The files that the scripts write as JSON, character by character. */
module WrittenTexts {
  import opened Hosts
  import opened Json
  import opened JsonRoundTrip
  import opened JsonTrees
  import opened JsonLayout
  import opened CanonicalJson
  import opened CanonicalLaw
  import opened BuildManifests
  import opened CopyTrees

  /** The text spells the value, each element on a line of its own, indented by `gap` for
      each level. */
  ghost predicate LaysOut(h: Host, text: string, v: JsValue, gap: string) {
    exists d :: DocOk(d) && Laid(h, d, gap, "") && DocValue(h, d) == v && text == DocText(d)
  }

  /** The manifest file: four spaces for each level, and a line break at the end. */
  lemma ManifestFileText(h: Host, m: JsValue)
    requires Proper(h, m)
    ensures exists text :: LaysOut(h, text, Clean(m), "    ") && ManifestText(m) == text + "\n"
  {
    CleanPrints(h, m);
    SerializeClean(m, "    ", "");
    hide Serialize, Clean, DocOk, Laid, DocValue, DocText;
    SerializeIsLaidOut(h, Clean(m), "    ", Serialize(m, "    ", ""));
    assert LaysOut(h, Serialize(m, "    ", ""), Clean(m), "    ");
  }

  /** The installation record: two spaces for each level. */
  lemma RecordFileText(h: Host, ownership: JsValue)
    requires Proper(h, ownership)
    ensures exists text :: LaysOut(h, text, Clean(ownership), "  ") && OwnershipText(ownership) == text + "\n"
  {
    CleanPrints(h, ownership);
    SerializeClean(ownership, "  ", "");
    hide Serialize, Clean, DocOk, Laid, DocValue, DocText;
    SerializeIsLaidOut(h, Clean(ownership), "  ", Serialize(ownership, "  ", ""));
    assert LaysOut(h, Serialize(ownership, "  ", ""), Clean(ownership), "  ");
  }

  /** Canonical text has no white space between its tokens, and the shortest escapes. */
  lemma CanonicalTextIsTight(h: Host, v: JsValue)
    requires Proper(h, v)
    ensures LaysOut(h, CanonicalText(v), Clean(Canonical(v)), "")
  {
    CanonicalKeeps(h, v);
    CleanPrints(h, Canonical(v));
    SerializeClean(Canonical(v), "", "");
    hide Serialize, Clean, DocOk, Laid, DocValue, DocText, Canonical;
    SerializeIsLaidOut(h, Clean(Canonical(v)), "", CanonicalText(v));
  }
}
