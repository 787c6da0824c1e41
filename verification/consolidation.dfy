/** The classifiers of scripts/consolidate-youth-justice-contacts.py. Each
    one lower-cases `f"{title} {organisation} {description}"` (or the one text
    it is given) and tests keyword substrings; where the source walks a dict,
    the first entry in declaration order that matches wins. */
module Consolidation {
  import opened Strings

  /** The text every title/organisation/description classifier examines. */
  function ProfileText(title: string, organisation: string, description: string): string {
    Lower(title + " " + organisation + " " + description)
  }

  // ---------------------------------------------------------------------------
  // Sector
  // ---------------------------------------------------------------------------

  /** The keys of `sector_mapping`, in declaration order. */
  const SectorKeys: seq<string> := [
    "government", "media", "ngo", "philanthropy", "academic", "legal", "corporate", "civil_society"]

  /** The keyword lists of `sector_mapping`, parallel to `SectorKeys`. */
  const SectorKeywords: KeywordGroups := [
    ["politician", "minister", "mp", "senator", "council", "commission", "department"],
    ["journalist", "reporter", "editor", "producer", "abc", "sbs", "nine", "seven", "ten", "radio"],
    ["foundation", "charity", "advocacy", "rights", "coalition", "community"],
    ["foundation", "philanthropist", "donor", "grant", "funding"],
    ["university", "professor", "researcher", "phd", "dr", "academic", "research"],
    ["judge", "magistrate", "lawyer", "barrister", "solicitor", "court", "legal"],
    ["ceo", "director", "manager", "executive", "business", "corporate", "company"],
    ["activist", "advocate", "organiser", "campaigner", "community leader"]]

  /** `sector.replace('_', ' ').title()` */
  function SectorLabel(key: string): string {
    Title(ReplaceChar(key, '_', ' '))
  }

  /** The labels the sector keys turn into. Note "ngo" becomes "Ngo". */
  const SectorLabels: seq<string> := [
    "Government", "Media", "Ngo", "Philanthropy", "Academic", "Legal", "Corporate", "Civil Society"]

  /** Each sector key, with '_' spaced and title-cased, is the listed label. */
  lemma SectorLabelIsListed(k: int)
    requires 0 <= k < |SectorKeys|
    ensures SectorLabel(SectorKeys[k]) == SectorLabels[k]
  {
    if k == 0 { GovernmentLabel(); }
    else if k == 1 { MediaLabel(); }
    else if k == 2 { NgoLabel(); }
    else if k == 3 { PhilanthropyLabel(); }
    else if k == 4 { AcademicLabel(); }
    else if k == 5 { LegalLabel(); }
    else if k == 6 { CorporateLabel(); }
    else { CivilSocietyLabel(); }
  }

  lemma GovernmentLabel() ensures SectorLabel("government") == "Government" {
    TitleOfLowerWord("government");
  }
  lemma MediaLabel() ensures SectorLabel("media") == "Media" {
    TitleOfLowerWord("media");
  }
  lemma NgoLabel() ensures SectorLabel("ngo") == "Ngo" {
    TitleOfLowerWord("ngo");
  }
  lemma PhilanthropyLabel() ensures SectorLabel("philanthropy") == "Philanthropy" {
    TitleOfLowerWord("philanthropy");
  }
  lemma AcademicLabel() ensures SectorLabel("academic") == "Academic" {
    TitleOfLowerWord("academic");
  }
  lemma LegalLabel() ensures SectorLabel("legal") == "Legal" {
    TitleOfLowerWord("legal");
  }
  lemma CorporateLabel() ensures SectorLabel("corporate") == "Corporate" {
    TitleOfLowerWord("corporate");
  }
  lemma CivilSocietyLabel() ensures SectorLabel("civil_society") == "Civil Society" {
    assert ReplaceChar("civil_society", '_', ' ') == "civil" + " " + "society";
    TitleAroundSpace("civil", "society");
    TitleOfLowerWord("civil");
    TitleOfLowerWord("society");
  }

  /** `standardize_sector`: the titled name of the first sector with a keyword in the text, else "Other". */
  function StandardizeSector(title: string, organisation: string, description: string): (r: string)
    ensures r in SectorLabels || r == "Other"
    ensures r == "Other" <==> forall k :: 0 <= k < |SectorKeywords| ==> !ContainsAny(ProfileText(title, organisation, description), SectorKeywords[k])
  {
    var k := FirstGroup(ProfileText(title, organisation, description), SectorKeywords);
    if k < |SectorKeywords| then
      SectorLabelIsListed(k);
      SectorLabel(SectorKeys[k])
    else "Other"
  }

  /** The sector of the first matching group in declaration order. */
  lemma StandardizeSectorFirstMatch(title: string, organisation: string, description: string, k: int)
    requires 0 <= k < |SectorKeywords|
    requires ContainsAny(ProfileText(title, organisation, description), SectorKeywords[k])
    requires forall j :: 0 <= j < k ==> !ContainsAny(ProfileText(title, organisation, description), SectorKeywords[j])
    ensures StandardizeSector(title, organisation, description) == SectorLabels[k]
  {
    SectorLabelIsListed(k);
  }

  /** The upper-case spelling "NGO" is never a sector. */
  lemma NeverUpperNgo(title: string, organisation: string, description: string)
    ensures StandardizeSector(title, organisation, description) != "NGO"
  {
  }

  // ---------------------------------------------------------------------------
  // Relevance
  // ---------------------------------------------------------------------------

  const HighKeywords: seq<string> := ["youth justice", "juvenile", "detention", "children court", "youth crime", "justice reinvestment"]
  const MediumKeywords: seq<string> := ["crime prevention", "rehabilitation", "diversion", "restorative justice", "indigenous justice"]
  const LowKeywords: seq<string> := ["social work", "community", "education", "welfare", "support services"]

  /** `calculate_relevance_score`: 10, 7 or 5 for the first keyword tier that
      matches, else 6 for legal or government, 4 for academic or media, 3 otherwise. */
  function RelevanceScore(title: string, organisation: string, description: string): (r: int)
    ensures r in {3, 4, 5, 6, 7, 10}
    ensures r == 10 <==> ContainsAny(ProfileText(title, organisation, description), HighKeywords)
    ensures r == 7 <==>
      !ContainsAny(ProfileText(title, organisation, description), HighKeywords)
      && ContainsAny(ProfileText(title, organisation, description), MediumKeywords)
    ensures r == 5 <==>
      !ContainsAny(ProfileText(title, organisation, description), HighKeywords)
      && !ContainsAny(ProfileText(title, organisation, description), MediumKeywords)
      && ContainsAny(ProfileText(title, organisation, description), LowKeywords)
    ensures r in {3, 4, 6} <==>
      !ContainsAny(ProfileText(title, organisation, description), HighKeywords)
      && !ContainsAny(ProfileText(title, organisation, description), MediumKeywords)
      && !ContainsAny(ProfileText(title, organisation, description), LowKeywords)
    ensures r in {3, 4, 6} ==>
      var sector := StandardizeSector(title, organisation, description);
      (r == 6 <==> sector in {"Legal", "Government"}) && (r == 4 <==> sector in {"Academic", "Media"})
  {
    var text := ProfileText(title, organisation, description);
    if ContainsAny(text, HighKeywords) then 10
    else if ContainsAny(text, MediumKeywords) then 7
    else if ContainsAny(text, LowKeywords) then 5
    else
      var sector := StandardizeSector(title, organisation, description);
      if sector in ["Legal", "Government"] then 6
      else if sector in ["Academic", "Media"] then 4
      else 3
  }

  /** A youth-justice keyword of the high or medium tier always scores above
      every sector default; a low-tier keyword scores below the legal and
      government default. */
  lemma KeywordTiersOutrankSectors(title: string, organisation: string, description: string)
    ensures var text := ProfileText(title, organisation, description);
      (RelevanceScore(title, organisation, description) >= 7
       <==> ContainsAny(text, HighKeywords) || ContainsAny(text, MediumKeywords))
    ensures RelevanceScore(title, organisation, description) >= 3
  {
  }

  // ---------------------------------------------------------------------------
  // Indigenous affiliation
  // ---------------------------------------------------------------------------

  const IndigenousIndicators: seq<string> := [
    "aboriginal", "torres strait", "indigenous", "first nations", "koori", "murri", "noongar",
    "yolngu", "anangu", "palawa", "tiwi", "yarrabah", "mob", "blackfella"]

  /** The explicit negations the affiliation test looks for. */
  predicate Negated(text: string) {
    Contains(text, "non-indigenous") || Contains(text, "not indigenous")
  }

  /** `detect_indigenous_affiliation` as written: the indicator test runs first. */
  function DetectIndigenousAffiliationAsWritten(text: string): (r: string)
    ensures r in {"Yes", "No", "Unknown"}
    ensures r == "Yes" <==> text != "" && ContainsAny(Lower(text), IndigenousIndicators)
  {
    if text == "" then "Unknown"
    else if ContainsAny(Lower(text), IndigenousIndicators) then "Yes"
    else if Negated(Lower(text)) then "No"
    else "Unknown"
  }

  /** Both negations contain the indicator "indigenous", so the indicator test
      has already answered "Yes" whenever a negation is present. */
  lemma {:induction false} NegationMentionsIndicator(text: string)
    requires Negated(text)
    ensures ContainsAny(text, IndigenousIndicators)
  {
    if Contains(text, "non-indigenous") {
      assert OccursAt("non-indigenous", "indigenous", 4);
      ContainsTransitive(text, "non-indigenous", "indigenous");
    } else {
      assert OccursAt("not indigenous", "indigenous", 4);
      ContainsTransitive(text, "not indigenous", "indigenous");
    }
    assert IndigenousIndicators[2] == "indigenous";
  }

  /** The as-written test never answers "No", even for "non-indigenous". */
  lemma AsWrittenNeverNo(text: string)
    ensures DetectIndigenousAffiliationAsWritten(text) != "No"
  {
    if text != "" && Negated(Lower(text)) {
      NegationMentionsIndicator(Lower(text));
    }
  }

  /** A concrete input: an explicitly non-Indigenous profile is reported as Indigenous. */
  lemma AsWrittenNonIndigenousIsYes()
    ensures DetectIndigenousAffiliationAsWritten("non-indigenous") == "Yes"
  {
    var t := "non-indigenous";
    assert Lower(t) == t;
    assert OccursAt(t, t, 0);
    NegationMentionsIndicator(t);
  }

  /** The corrected test: an explicit negation is recognised before the indicators. */
  function DetectIndigenousAffiliation(text: string): (r: string)
    ensures r in {"Yes", "No", "Unknown"}
    ensures r == "No" <==> text != "" && Negated(Lower(text))
    ensures r == "Yes" <==> text != "" && !Negated(Lower(text)) && ContainsAny(Lower(text), IndigenousIndicators)
    ensures text == "" ==> r == "Unknown"
  {
    if text == "" then "Unknown"
    else if Negated(Lower(text)) then "No"
    else if ContainsAny(Lower(text), IndigenousIndicators) then "Yes"
    else "Unknown"
  }

  /** The two versions differ only where the as-written one ignored a negation. */
  lemma AffiliationAgreesWithoutNegation(text: string)
    requires text == "" || !Negated(Lower(text))
    ensures DetectIndigenousAffiliation(text) == DetectIndigenousAffiliationAsWritten(text)
  {
  }

  // ---------------------------------------------------------------------------
  // Youth-justice focus
  // ---------------------------------------------------------------------------

  /** The keys of `youth_justice_patterns`, in declaration order. */
  const FocusNames: seq<string> := [
    "detention reform", "justice reinvestment", "indigenous justice", "trauma informed",
    "prevention", "rehabilitation", "legal advocacy"]

  /** The keyword lists of `youth_justice_patterns`, parallel to `FocusNames`. */
  const FocusKeywords: KeywordGroups := [
    ["detention", "custody", "incarceration"],
    ["justice reinvestment", "community investment"],
    ["indigenous", "aboriginal", "first nations"],
    ["trauma", "healing", "therapy"],
    ["prevention", "early intervention", "diversion"],
    ["rehabilitation", "reintegration", "support"],
    ["legal", "court", "advocacy", "rights"]]

  /** The names of every group with a keyword in `text`, in declaration order. */
  function MatchingGroups(text: string, names: seq<string>, groups: KeywordGroups): (r: seq<string>)
    requires |names| == |groups|
    ensures IsSubsequence(r, names)
    ensures forall n :: n in r ==> exists k :: 0 <= k < |groups| && names[k] == n && ContainsAny(text, groups[k])
    ensures forall k :: 0 <= k < |groups| && ContainsAny(text, groups[k]) ==> names[k] in r
    ensures |r| == 0 <==> forall k :: 0 <= k < |groups| ==> !ContainsAny(text, groups[k])
  {
    if |groups| == 0 then []
    else
      var rest := MatchingGroups(text, names[1..], groups[1..]);
      assert forall k :: 1 <= k < |groups| ==> groups[k] == groups[1..][k - 1] && names[k] == names[1..][k - 1];
      if ContainsAny(text, groups[0]) then [names[0]] + rest else rest
  }

  /** A subsequence of a sequence without repeats has no repeats, and draws its elements from it. */
  lemma {:induction false} SubsequenceOfDistinctIsDistinct<T>(xs: seq<T>, ys: seq<T>)
    requires IsSubsequence(xs, ys) && Distinct(ys)
    ensures Distinct(xs) && forall x :: x in xs ==> x in ys
  {
    if |xs| > 0 {
      assert Distinct(ys[1..]) by {
        forall i, j | 0 <= i < j < |ys[1..]|
          ensures ys[1..][i] != ys[1..][j]
        {
          assert ys[1..][i] == ys[i + 1] && ys[1..][j] == ys[j + 1];
        }
      }
      if xs[0] == ys[0] && IsSubsequence(xs[1..], ys[1..]) {
        SubsequenceOfDistinctIsDistinct(xs[1..], ys[1..]);
        forall i | 0 < i < |xs|
          ensures xs[i] != xs[0]
        {
          assert xs[i] in xs[1..];
          var j :| 0 <= j < |ys[1..]| && ys[1..][j] == xs[i];
          assert ys[j + 1] == xs[i];
        }
        forall i, j | 0 <= i < j < |xs|
          ensures xs[i] != xs[j]
        {
          if i > 0 {
            assert xs[i] == xs[1..][i - 1] && xs[j] == xs[1..][j - 1];
          }
        }
        forall x | x in xs
          ensures x in ys
        {
          if x != xs[0] {
            assert x in xs[1..];
          }
        }
      } else {
        SubsequenceOfDistinctIsDistinct(xs, ys[1..]);
      }
    }
  }

  /** `extract_youth_justice_focus`: the matching areas joined by ", ", or "General". */
  function YouthJusticeFocus(title: string, organisation: string, description: string): (r: string)
    ensures r == "General" <==> forall k :: 0 <= k < |FocusKeywords| ==> !ContainsAny(ProfileText(title, organisation, description), FocusKeywords[k])
  {
    var areas := MatchingGroups(ProfileText(title, organisation, description), FocusNames, FocusKeywords);
    if |areas| == 0 then "General"
    else
      FocusNamesAreLong();
      JoinNotGeneral(areas);
      Join(areas, ", ")
  }

  /** Every focus name is longer than "General". */
  lemma FocusNamesAreLong()
    ensures forall n :: n in FocusNames ==> |n| >= 10
  {
  }

  /** The focus names are pairwise different. */
  lemma FocusNamesDistinct()
    ensures Distinct(FocusNames)
  {
  }

  /** The focus areas are distinct names drawn from the pattern table. */
  lemma FocusAreasDistinct(text: string)
    ensures Distinct(MatchingGroups(text, FocusNames, FocusKeywords))
    ensures forall n :: n in MatchingGroups(text, FocusNames, FocusKeywords) ==> n in FocusNames
  {
    FocusNamesDistinct();
    SubsequenceOfDistinctIsDistinct(MatchingGroups(text, FocusNames, FocusKeywords), FocusNames);
  }

  /** A join starts with its first part. */
  lemma JoinStartsWithFirst(parts: seq<string>, sep: string)
    requires |parts| > 0
    ensures |Join(parts, sep)| >= |parts[0]|
  {
  }

  /** No non-empty join of focus names spells "General": it is at least as long as its first name. */
  lemma JoinNotGeneral(areas: seq<string>)
    requires |areas| > 0
    requires forall n :: n in areas ==> |n| >= 10
    ensures Join(areas, ", ") != "General"
  {
    JoinStartsWithFirst(areas, ", ");
    assert areas[0] in areas;
  }

  // ---------------------------------------------------------------------------
  // Engagement priority
  // ---------------------------------------------------------------------------

  /** `determine_engagement_priority` as written: it tests the sector against
      "NGO", a spelling `standardize_sector` never produces. */
  function EngagementPriorityAsWritten(relevance: int, sector: string, affiliation: string): (r: string)
    ensures r in {"High", "Medium", "Low"}
    ensures r == "High" <==> relevance >= 8 || sector in ["Legal", "Government"] || affiliation == "Yes"
    ensures r == "Low" <==> relevance < 5 && sector !in ["Legal", "Government", "Media", "Academic", "NGO"] && affiliation != "Yes"
  {
    if relevance >= 8 || sector in ["Legal", "Government"] || affiliation == "Yes" then "High"
    else if relevance >= 5 || sector in ["Media", "Academic", "NGO"] then "Medium"
    else "Low"
  }

  /** A low-relevance NGO contact: "foundation" alone makes the sector "Ngo" and the relevance 3. */
  lemma AsWrittenNgoIsLow()
    ensures EngagementPriorityAsWritten(3, SectorLabels[2], "Unknown") == "Low"
    ensures EngagementPriority(3, SectorLabels[2], "Unknown") == "Medium"
  {
  }

  /** The corrected rule: an NGO, as `standardize_sector` spells it, is a medium priority. */
  function EngagementPriority(relevance: int, sector: string, affiliation: string): (r: string)
    ensures r in {"High", "Medium", "Low"}
    ensures r == "High" <==> relevance >= 8 || sector in ["Legal", "Government"] || affiliation == "Yes"
    ensures r == "Low" <==> relevance < 5 && sector !in ["Legal", "Government", "Media", "Academic", "Ngo"] && affiliation != "Yes" && relevance < 8
  {
    if relevance >= 8 || sector in ["Legal", "Government"] || affiliation == "Yes" then "High"
    else if relevance >= 5 || sector in ["Media", "Academic", "Ngo"] then "Medium"
    else "Low"
  }

  function PriorityRank(p: string): int {
    if p == "High" then 2 else if p == "Medium" then 1 else 0
  }

  /** A higher relevance never lowers the priority. */
  lemma EngagementPriorityMonotone(r1: int, r2: int, sector: string, affiliation: string)
    requires r1 <= r2
    ensures PriorityRank(EngagementPriority(r1, sector, affiliation)) <= PriorityRank(EngagementPriority(r2, sector, affiliation))
  {
  }

  /** For every sector `standardize_sector` can return, the corrected rule
      agrees with the written one except on the "Ngo" sector. */
  lemma PriorityDiffersOnlyOnNgo(relevance: int, sector: string, affiliation: string)
    requires sector != "Ngo"
    ensures EngagementPriority(relevance, sector, affiliation) == EngagementPriorityAsWritten(relevance, sector, affiliation)
             || sector == "NGO"
  {
  }

  // ---------------------------------------------------------------------------
  // Media reach
  // ---------------------------------------------------------------------------

  const NationalOrgs: seq<string> := ["abc", "sbs", "nine", "seven", "ten", "news corp", "fairfax", "guardian"]
  const StateCities: seq<string> := ["sydney", "melbourne", "brisbane", "perth", "adelaide", "darwin", "hobart"]

  /** `estimate_media_reach(organisation, title)` */
  function MediaReach(organisation: string, title: string): (r: string)
    ensures r in {"National", "State", "Local", "Unknown"}
    ensures r == "National" <==> ContainsAny(Lower(organisation), NationalOrgs)
    ensures r == "State" <==> !ContainsAny(Lower(organisation), NationalOrgs) && ContainsAny(Lower(organisation), StateCities)
    ensures r == "Local" <==> !ContainsAny(Lower(organisation), NationalOrgs) && !ContainsAny(Lower(organisation), StateCities)
                              && StandardizeSector(title, organisation, "") == "Media"
  {
    OnlyMediaMentionsMedia(StandardizeSector(title, organisation, ""));
    var org := Lower(organisation);
    if ContainsAny(org, NationalOrgs) then "National"
    else if ContainsAny(org, StateCities) then "State"
    else if Contains(Lower(StandardizeSector(title, organisation, "")), "media") then "Local"
    else "Unknown"
  }

  /** Of the sector names, only "Media" mentions "media" once lower-cased. */
  lemma OnlyMediaMentionsMedia(name: string)
    requires name in SectorLabels || name == "Other"
    ensures Contains(Lower(name), "media") <==> name == "Media"
  {
    var low := Lower(name);
    if name == "Media" {
      assert low == "media";
      ContainsSelf(low);
    } else if name == "Academic" {
      AcademicLacksMedia();
    } else {
      assert 'd' !in name && 'D' !in name;
      LacksMediaWithoutD(name);
    }
  }

  /** "academic" has no room for "media": its one 'm' is too close to the end. */
  lemma AcademicLacksMedia()
    ensures !Contains(Lower("Academic"), "media")
  {
    var low := Lower("Academic");
    assert low == "academic";
    forall i | 0 <= i <= |low| - 5
      ensures !OccursAt(low, "media", i)
    {
      assert low[i] != 'm';
    }
  }

  /** A name without a 'd' of either case never mentions "media". */
  lemma LacksMediaWithoutD(name: string)
    requires 'd' !in name && 'D' !in name
    ensures !Contains(Lower(name), "media")
  {
    assert IsLowerChar('d') && UpperChar('d') == 'D';
    LowerLacks(name, 'd');
    MissingCharNotContained(Lower(name), "media", 2);
  }

  // ---------------------------------------------------------------------------
  // State and Twitter handle
  // ---------------------------------------------------------------------------

  /** The state codes of `state_mappings`, in declaration order. */
  const StateCodes: seq<string> := ["NSW", "VIC", "QLD", "WA", "SA", "TAS", "NT", "ACT"]

  /** The indicators of `state_mappings`, parallel to `StateCodes`. */
  const StateIndicators: KeywordGroups := [
    ["nsw", "new south wales", "sydney"],
    ["vic", "victoria", "melbourne"],
    ["qld", "queensland", "brisbane"],
    ["wa", "western australia", "perth"],
    ["sa", "south australia", "adelaide"],
    ["tas", "tasmania", "hobart"],
    ["nt", "northern territory", "darwin"],
    ["act", "australian capital territory", "canberra"]]

  /** `_extract_state_from_location`: the code of the first state with an indicator, or "". */
  function StateFromLocation(location: string): (r: string)
    ensures r == "" <==> location == "" || forall k :: 0 <= k < |StateIndicators| ==> !ContainsAny(Lower(location), StateIndicators[k])
    ensures r != "" ==>
              exists k :: (0 <= k < |StateCodes| && r == StateCodes[k] && ContainsAny(Lower(location), StateIndicators[k])
                           && forall j :: 0 <= j < k ==> !ContainsAny(Lower(location), StateIndicators[j]))
  {
    if location == "" then ""
    else
      var k := FirstGroup(Lower(location), StateIndicators);
      if k < |StateCodes| then StateCodes[k] else ""
  }

  const StatePatterns: seq<string> := [
    "qld", "nsw", "vic", "wa", "sa", "tas", "nt", "act",
    "queensland", "new south wales", "victoria", "western australia",
    "south australia", "tasmania", "northern territory", "australian capital territory"]

  /** `_extract_state_from_text`: the first three letters, upper-cased, of the first pattern found. */
  function StateFromText(text: string): (r: string)
    ensures |r| <= 3
    ensures r != "" ==> exists k :: 0 <= k < |StatePatterns| && Contains(Lower(text), StatePatterns[k])
                          && r == Take(Upper(StatePatterns[k]), 3)
    ensures forall i :: 0 <= i < |r| ==> IsUpperChar(r[i])
    ensures r == "" <==> text == "" || !ContainsAny(Lower(text), StatePatterns)
  {
    if text == "" then ""
    else
      var k := FirstContained(Lower(text), StatePatterns);
      FirstContainedIsAny(Lower(text), StatePatterns);
      if k < |StatePatterns| then
        StatePatternsStartWithLetters(k);
        Take(Upper(StatePatterns[k]), 3)
      else ""
  }

  /** A text holding one of the eight abbreviations ("qld" to "act") is
      read as that abbreviation, upper-cased, unless an earlier one of the
      list occurs in it too. */
  lemma AbbreviationFound(text: string, k: int)
    requires 0 <= k < 8 && Contains(Lower(text), StatePatterns[k])
    requires forall j :: 0 <= j < k ==> !Contains(Lower(text), StatePatterns[j])
    ensures StateFromText(text) == Upper(StatePatterns[k])
  {
    assert text != "";
    assert |StatePatterns[k]| <= 3;
  }

  /** The abbreviations are tried before the full names, so "wales" holds
      "wa": a text naming New South Wales in full, and none of "qld", "nsw"
      and "vic", is read as Western Australia. */
  lemma WalesReadsAsWesternAustralia(text: string)
    requires Contains(Lower(text), "wales")
    requires forall j :: 0 <= j < 3 ==> !Contains(Lower(text), StatePatterns[j])
    ensures StateFromText(text) == "WA"
  {
    assert OccursAt("wales", StatePatterns[3], 0);
    ContainsTransitive(Lower(text), "wales", StatePatterns[3]);
    AbbreviationFound(text, 3);
    assert Upper(StatePatterns[3]) == "WA";
  }

  lemma StatePatternsStartWithLetters(k: int)
    requires 0 <= k < |StatePatterns|
    ensures |StatePatterns[k]| >= 2
    ensures forall i :: 0 <= i < 3 && i < |StatePatterns[k]| ==> IsLowerChar(StatePatterns[k][i])
  {
  }

  /** `[\w_]` on ASCII. */
  predicate IsWordChar(c: char) {
    IsAlnum(c) || c == '_'
  }

  /** A handle starts at `i`: an '@' followed by a word character. */
  predicate HandleAt(s: string, i: int) {
    0 <= i && i + 1 < |s| && s[i] == '@' && IsWordChar(s[i + 1])
  }

  /** Length of the run of word characters at the start of `s`. */
  function WordRun(s: string): (n: nat)
    ensures n <= |s|
    ensures forall i :: 0 <= i < n ==> IsWordChar(s[i])
    ensures n < |s| ==> !IsWordChar(s[n])
  {
    if |s| == 0 || !IsWordChar(s[0]) then 0 else 1 + WordRun(s[1..])
  }

  /** Position of the first handle at or after `from`, or |s|: where
      `re.findall` finds its first match. */
  function FirstHandleAt(s: string, from: nat): (i: nat)
    requires from <= |s|
    ensures from <= i <= |s|
    ensures i < |s| ==> HandleAt(s, i)
    ensures forall j :: from <= j < i ==> !HandleAt(s, j)
    decreases |s| - from
  {
    if from == |s| || HandleAt(s, from) then from
    else FirstHandleAt(s, from + 1)
  }

  /** The match of `@[\w_]+` starting at a handle position: '@' and the
      whole run of word characters after it. */
  function HandleFrom(s: string, i: int): (r: string)
    requires HandleAt(s, i)
    ensures 2 <= |r| && r[0] == '@' && OccursAt(s, r, i)
    ensures forall k :: 1 <= k < |r| ==> IsWordChar(r[k])
    ensures i + |r| < |s| ==> !IsWordChar(s[i + |r|])
  {
    var n := WordRun(s[i + 1..]);
    assert s[i..i + 1 + n] == "@" + s[i + 1..i + 1 + n];
    "@" + s[i + 1..i + 1 + n]
  }

  /** `_extract_twitter_from_contact`: the leftmost handle, '@' and its whole
      word-character run, or "" when there is none. */
  function TwitterHandle(contactInfo: string): (r: string)
    ensures r == "" <==> forall i :: 0 <= i < |contactInfo| ==> !HandleAt(contactInfo, i)
    ensures r != "" ==> exists i :: HandleAt(contactInfo, i) && r == HandleFrom(contactInfo, i)
                                   && forall j :: 0 <= j < i ==> !HandleAt(contactInfo, j)
  {
    if contactInfo == "" then ""
    else
      var i := FirstHandleAt(contactInfo, 0);
      if i < |contactInfo| then HandleFrom(contactInfo, i) else ""
  }

  /** A handle is a substring of the contact information: an '@' and word characters only. */
  lemma TwitterHandleShape(contactInfo: string)
    ensures var r := TwitterHandle(contactInfo);
      r == "" || (|r| >= 2 && r[0] == '@' && Contains(contactInfo, r) && forall k :: 1 <= k < |r| ==> IsWordChar(r[k]))
  {
    var r := TwitterHandle(contactInfo);
    if r != "" {
      var i := FirstHandleAt(contactInfo, 0);
      assert OccursAt(contactInfo, r, i);
    }
  }

  /** The pattern does not look at what precedes the '@', so in an e-mail
      address such as "jo@abc.net" the domain's first word, "@abc", is taken
      for a handle. */
  lemma EmailAddressGivesHandle(local: string, domain: string)
    requires '@' !in local
    requires |domain| > 0 && IsWordChar(domain[0])
    ensures TwitterHandle(local + "@" + domain) == "@" + domain[..WordRun(domain)]
  {
    var s := local + "@" + domain;
    NoHandleInLocalPart(local, domain);
    HandleAfterLocalPart(local, domain);
    FirstHandleAtSkips(s, 0, |local|);
  }

  lemma NoHandleInLocalPart(local: string, domain: string)
    requires '@' !in local
    ensures forall j :: 0 <= j < |local| ==> !HandleAt(local + "@" + domain, j)
  {
    var s := local + "@" + domain;
    forall j | 0 <= j < |local|
      ensures !HandleAt(s, j)
    {
      assert s[j] == local[j];
    }
  }

  lemma HandleAfterLocalPart(local: string, domain: string)
    requires |domain| > 0 && IsWordChar(domain[0])
    ensures HandleAt(local + "@" + domain, |local|)
    ensures HandleFrom(local + "@" + domain, |local|) == "@" + domain[..WordRun(domain)]
  {
    var s := local + "@" + domain;
    assert s[|local|] == '@' && s[|local| + 1] == domain[0];
    assert s[|local| + 1..] == domain;
  }

  /** The first handle is the handle at `i` when none comes before it. */
  lemma {:induction false} FirstHandleAtSkips(s: string, from: nat, i: nat)
    requires from <= i < |s| && HandleAt(s, i)
    requires forall j :: from <= j < i ==> !HandleAt(s, j)
    ensures FirstHandleAt(s, from) == i
    decreases i - from
  {
    if from < i {
      FirstHandleAtSkips(s, from + 1, i);
    }
  }
}
