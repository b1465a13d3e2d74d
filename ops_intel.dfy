/**
 * The `ops_intel` tool: a fixed table of nine prose sections, looked up by key. The prose itself
 * is not reproduced; `text` stands for the table's contents, every one of which is non-empty.
 */
module OpsIntel {
  import opened Text

  /** The table's keys, in declaration order (the order `Object.keys` gives). */
  const Keys := ["funding_tier1", "funding_tier2", "funding_tier3", "board_disability", "board_data_ethics",
                 "board_lgbtq", "domain_map_core", "content_strategy", "roadmap"]

  const ListAll := "all_sections"
  const ListHeader := "Available ops-intel sections:\n"

  /** The table's contents: the text of each key. */
  type Contents = string -> string

  /** The texts in the table are non-empty string literals. */
  predicate Filled(text: Contents) {
    forall k :: k in Keys ==> text(k) != ""
  }

  /** The names every plain object inherits from `Object.prototype`. */
  const Inherited := ["constructor", "hasOwnProperty", "isPrototypeOf", "propertyIsEnumerable", "toLocaleString",
                      "toString", "valueOf", "__proto__", "__defineGetter__", "__defineSetter__",
                      "__lookupGetter__", "__lookupSetter__"]

  function NotFound(section: string): string {
    "Section \"" + section + "\" not found. Available: " + Join(Keys, ", ")
  }

  /** What `execute` returns: a string, or the inherited member `OPS_INTEL[section]` reaches. */
  datatype Answer = Text(text: string) | InheritedMember(name: string)

  /** `opsIntelTool.execute` as written: `OPS_INTEL[section]` also finds the inherited members. */
  function ExecuteAsWritten(section: string, text: Contents): (r: Answer)
    requires Filled(text)
    ensures section == ListAll ==> r == Text(ListHeader + Join(Keys, "\n"))
    ensures section != ListAll && section in Keys ==> r == Text(text(section))
    ensures section != ListAll && section !in Keys && section in Inherited ==> r == InheritedMember(section)
    ensures section != ListAll && section !in Keys && section !in Inherited ==> r == Text(NotFound(section))
  {
    if section == ListAll then Text(ListHeader + Join(Keys, "\n"))
    else if section in Keys then Text(text(section))
    else if section in Inherited then InheritedMember(section)
    else Text(NotFound(section))
  }

  /** A key the table does not have, but every object answers, is not reported as missing. */
  lemma InheritedNameNotReported(text: Contents)
    requires Filled(text)
    ensures ExecuteAsWritten("toString", text) == InheritedMember("toString")
  {
    assert "toString" == Inherited[5];
    assert "toString"[0] != "all_sections"[0];
    assert forall k :: k in Keys ==> k[0] != 't';
  }

  /** The lookup with the own keys of the table only. */
  function Execute(section: string, text: Contents): (r: string)
    requires Filled(text)
    ensures section == ListAll ==> r == ListHeader + Join(Keys, "\n")
    ensures section != ListAll && section in Keys ==> r == text(section)
    ensures section != ListAll && section !in Keys ==> r == NotFound(section)
  {
    if section == ListAll then ListHeader + Join(Keys, "\n")
    else if section in Keys then text(section)
    else NotFound(section)
  }

  /** Every name that is not a key, inherited ones included, gets the not-found message naming it. */
  lemma UnknownSectionNamed(section: string, text: Contents)
    requires Filled(text) && section != ListAll && section !in Keys
    ensures Contains(Execute(section, text), section)
  {
    var tail := "\" not found. Available: " + Join(Keys, ", ");
    assert NotFound(section) == "Section \"" + section + tail;
    ContainsSplice("Section \"", section, tail);
  }

  /** The table has nine distinct keys, none of them the listing request. */
  lemma NineKeys()
    ensures |Keys| == 9
    ensures forall i, j :: 0 <= i < j < |Keys| ==> Keys[i] != Keys[j]
    ensures ListAll !in Keys
  {
    assert Keys[0][12] != Keys[1][12] && Keys[0][12] != Keys[2][12] && Keys[1][12] != Keys[2][12];
  }

  /** The listing names each key on a line of its own, in order, after the header. */
  lemma ListingLines(text: Contents)
    requires Filled(text)
    ensures var r := Execute(ListAll, text);
            StartsWith(r, ListHeader) && Split(r[|ListHeader|..], '\n') == Keys
  {
    var listing := Join(Keys, "\n");
    assert Execute(ListAll, text) == ListHeader + listing;
    assert (ListHeader + listing)[|ListHeader|..] == listing;
    KeysWithoutLineFeed();
    JoinSplit(Keys, '\n');
  }

  /** No key contains a line feed. */
  lemma KeysWithoutLineFeed()
    ensures forall k :: 0 <= k < |Keys| ==> '\n' !in Keys[k]
  {
    forall k | 0 <= k < |Keys| ensures '\n' !in Keys[k] {
      assert forall i :: 0 <= i < |Keys[k]| ==> 'a' <= Keys[k][i] <= 'z' || '0' <= Keys[k][i] <= '9' || Keys[k][i] == '_';
    }
  }

  /** The sections the funding agent asks for beyond the three tiers: none is in the table. */
  const FundingScoutSections := ["funding_grants_federal", "funding_impact_investors", "funding_vc_ai_esg",
                                 "funding_vc_diversity", "funding_vc_enterprise_safety", "seed_round_strategy"]

  lemma FundingScoutSectionsMissing(text: Contents)
    requires Filled(text)
    ensures forall s :: s in FundingScoutSections ==> Execute(s, text) == NotFound(s)
  {
    KeysAreKeyLike();
    FundingSectionsAreNot();
  }

  /** A shape shared by the keys and "all_sections" and by none of the funding agent's sections. */
  predicate KeyLike(k: string) {
    k != [] && k[0] != 's' && (k[0] == 'f' ==> |k| > 8 && k[8] == 't')
  }

  lemma KeysAreKeyLike()
    ensures KeyLike(ListAll) && forall k :: k in Keys ==> KeyLike(k)
  {
    forall i | 0 <= i < |Keys| ensures KeyLike(Keys[i]) {
    }
  }

  lemma FundingSectionsAreNot()
    ensures forall s :: s in FundingScoutSections ==> !KeyLike(s)
  {
    forall i | 0 <= i < |FundingScoutSections| ensures !KeyLike(FundingScoutSections[i]) {
    }
  }
}
