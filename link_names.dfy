/**
 * The base reference name of a relation type. The REST store matches each raw
 * reference name against the pattern `(?<LinkTypeReferenceName>.*)-(?<Direction>.*)`
 * (single-line mode): the greedy first group runs up to the LAST hyphen. When the
 * name has no hyphen the match fails and the group's value is the empty string;
 * an empty or white-space base falls back to the whole raw name.
 */
module LinkTypeNames {
  import opened Wrappers
  import opened DotNetStrings

  /** Position of the last '-' in `s`, or None when `s` has no hyphen. */
  function LastHyphen(s: string): (r: Option<nat>)
    ensures r.None? <==> '-' !in s
    ensures r.Some? ==> r.value < |s| && s[r.value] == '-'
    ensures r.Some? ==> forall j | r.value < j < |s| :: s[j] != '-'
  {
    if |s| == 0 then None
    else if s[|s| - 1] == '-' then Some(|s| - 1)
    else
      assert s == s[..|s| - 1] + [s[|s| - 1]];
      LastHyphen(s[..|s| - 1])
  }

  /** The value of the regex's LinkTypeReferenceName group: empty when the match fails. */
  function MatchedLinkTypeReferenceName(name: string): string
  {
    match LastHyphen(name)
    case None => ""
    case Some(p) => name[..p]
  }

  /** The base name a relation type is grouped under. */
  function LinkTypeReferenceName(name: string): string
  {
    var linkRef := MatchedLinkTypeReferenceName(name);
    if IsNullOrWhiteSpace(linkRef) then name else linkRef
  }

  /**
   * The base name is always a prefix of the raw name, so parsing never fails; it is the
   * whole raw name exactly when there is no hyphen or the text before the last hyphen is
   * empty or white space.
   */
  lemma BaseNameIsPrefix(name: string)
    ensures LinkTypeReferenceName(name) <= name
    ensures LinkTypeReferenceName(name) == name <==>
              ('-' !in name || IsNullOrWhiteSpace(name[..LastHyphen(name).value]))
  {
  }

  /**
   * Otherwise the raw name is the base name, a hyphen and a direction token that holds
   * no further hyphen.
   */
  lemma BaseNameSplitsAtLastHyphen(name: string)
    requires LinkTypeReferenceName(name) != name
    ensures exists direction: string {:trigger LinkTypeReferenceName(name) + "-" + direction} ::
              && '-' !in direction
              && name == LinkTypeReferenceName(name) + "-" + direction
  {
    var p := LastHyphen(name).value;
    var direction := name[p + 1..];
    assert name == name[..p] + "-" + direction;
  }

  /**
   * Round trip: a base name that is not blank, joined to a hyphen-free direction
   * token such as "Forward" or "Reverse", parses back to that base name, even when
   * the base itself contains hyphens.
   */
  lemma BaseNameOfJoined(base: string, direction: string)
    requires !IsNullOrWhiteSpace(base)
    requires '-' !in direction
    ensures LinkTypeReferenceName(base + "-" + direction) == base
  {
    var s := base + "-" + direction;
    assert s[|base|] == '-';
    assert forall j | |base| < j < |s| :: s[j] == direction[j - |base| - 1];
    assert s[..|base|] == base;
  }
}
