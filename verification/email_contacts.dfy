/** scripts/process-new-email-contacts.py: from a comma-separated list of
    addresses to scored contact profiles, and the merge into the master
    table. The research call is an oracle that returns the research text. */
module EmailContacts {
  import opened Strings
  import opened Wrappers
  import opened KeyedDedup

  // ---------------------------------------------------------------------------
  // parse_email_list: re.search(r'([a-zA-Z0-9._%+-]+@[a-zA-Z0-9.-]+\.[a-zA-Z]{2,})', item)
  // ---------------------------------------------------------------------------

  predicate IsLocalChar(c: char) {
    IsAlnum(c) || c == '.' || c == '_' || c == '%' || c == '+' || c == '-'
  }

  predicate IsDomainChar(c: char) {
    IsAlnum(c) || c == '.' || c == '-'
  }

  /** A top-level-domain split at `k` of the domain run `r`: a '.' with at
      least one character before it and two letters after it. */
  predicate TldAt(r: string, k: int) {
    1 <= k && k + 2 < |r| && r[k] == '.' && IsLetter(r[k + 1]) && IsLetter(r[k + 2])
  }

  /** The largest split position at most `k`, or 0: where the greedy
      `[a-zA-Z0-9.-]+` stops after backtracking. */
  function LastTld(r: string, k: int): (j: int)
    ensures j == 0 || (1 <= j <= k && TldAt(r, j))
    ensures forall i :: j < i <= k ==> !TldAt(r, i)
    decreases k
  {
    if k < 1 then 0 else if TldAt(r, k) then k else LastTld(r, k - 1)
  }

  /** What the pattern matches: local characters, one '@', then domain
      characters with a '.' among them. */
  predicate AddressShape(m: string) {
    '@' in m &&
    var l := IndexOf(m, '@');
    l > 0 && '@' !in m[l + 1..] && '.' in m[l + 1..]
    && (forall i :: 0 <= i < l ==> IsLocalChar(m[i]))
  }

  /** Where the match that uses the '@' at position `j` starts, where its
      top-level '.' is and where it ends, if that '@' has local characters
      before it and a domain with a top-level part after it. */
  function MatchBounds(s: string, j: int): (b: Option<(nat, nat, nat)>)
    ensures b.Some? ==> var (lo, d, hi) := b.value;
      lo < j < d < hi <= |s| && s[j] == '@' && s[d] == '.'
      && (forall i :: lo <= i < j ==> IsLocalChar(s[i]))
      && (forall i :: j < i < hi ==> IsDomainChar(s[i]))
  {
    if !(0 <= j < |s|) || s[j] != '@' then None
    else
      var l := RunBack(s[..j], IsLocalChar);
      var after := s[j + 1..];
      var dom := after[..Run(after, IsDomainChar)];
      var k := LastTld(dom, |dom| - 1);
      if l == 0 || k == 0 then None
      else
        var t := Run(dom[k + 1..], IsLetter);
        assert forall i :: j - l <= i < j ==> s[i] == s[..j][i];
        assert forall i :: j < i < j + 2 + k + t ==> s[i] == dom[i - j - 1];
        Some((j - l, j + 1 + k, j + 2 + k + t))
  }

  /** The match that uses the '@' at position `j`, if any: always something
      shaped like an address. */
  function MatchAt(s: string, j: int): (r: Option<string>)
    ensures r.Some? ==> 0 <= j < |s| && s[j] == '@' && Contains(s, r.value)
    ensures r.Some? ==> AddressShape(r.value)
  {
    match MatchBounds(s, j)
    case None => None
    case Some((lo, d, hi)) =>
      SliceIsAddress(s, lo, j, d, hi);
      Some(s[lo..hi])
  }

  /** The text between the bounds of a match is an address-shaped part of it. */
  lemma SliceIsAddress(s: string, lo: nat, j: nat, d: nat, hi: nat)
    requires lo < j < d < hi <= |s| && s[j] == '@' && s[d] == '.'
    requires forall i :: lo <= i < j ==> IsLocalChar(s[i])
    requires forall i :: j < i < hi ==> IsDomainChar(s[i])
    ensures Contains(s, s[lo..hi]) && AddressShape(s[lo..hi])
  {
    var m := s[lo..hi];
    assert OccursAt(s, m, lo);
    assert forall i :: 0 <= i < |m| ==> m[i] == s[lo + i];
    ShapeOfParts(m, j - lo, d - lo);
  }

  /** Local characters, an '@', and domain characters with a '.' among them make an address. */
  lemma ShapeOfParts(m: string, l: int, d: int)
    requires 0 < l < d < |m| && m[l] == '@' && m[d] == '.'
    requires forall i :: 0 <= i < l ==> IsLocalChar(m[i])
    requires forall i :: l < i < |m| ==> IsDomainChar(m[i])
    ensures AddressShape(m)
  {
    assert '@' !in m[..l];
    var rest := m[l + 1..];
    assert forall i :: 0 <= i < |rest| ==> IsDomainChar(rest[i]);
    assert rest[d - l - 1] == '.';
    assert IndexOf(m, '@') == l;
  }

  /** The first '@' at or after `from` that yields a match: `re.search`'s leftmost match. */
  function SearchFrom(s: string, from: nat): (r: Option<string>)
    ensures r.Some? ==> exists j :: from <= j < |s| && MatchAt(s, j) == r
    ensures r.None? ==> forall j :: from <= j < |s| ==> MatchAt(s, j).None?
    decreases |s| - from
  {
    if from >= |s| then None
    else if MatchAt(s, from).Some? then MatchAt(s, from)
    else SearchFrom(s, from + 1)
  }

  /** What the search finds is an address-shaped part of the text. */
  lemma SearchFindsAddress(s: string, from: nat)
    ensures SearchFrom(s, from).Some? ==>
              Contains(s, SearchFrom(s, from).value) && AddressShape(SearchFrom(s, from).value)
  {
    if SearchFrom(s, from).Some? {
      var j :| from <= j < |s| && MatchAt(s, j) == SearchFrom(s, from);
    }
  }

  function FindEmail(item: string): (r: Option<string>)
    ensures r.Some? ==> Contains(item, r.value) && AddressShape(r.value)
    ensures '@' !in item ==> r.None?
  {
    SearchFindsAddress(item, 0);
    SearchFrom(item, 0)
  }

  /** The matches of the comma-separated items, in order, repeats included. */
  function MatchedItems(items: seq<string>): (r: seq<string>)
    ensures forall e :: e in r ==> AddressShape(e)
  {
    if |items| == 0 then []
    else
      match FindEmail(Strip(items[0]))
      case Some(e) => [e] + MatchedItems(items[1..])
      case None => MatchedItems(items[1..])
  }

  /** Every address found is the match of one of the items. */
  lemma {:induction false} MatchedItemsFromItems(items: seq<string>, e: string)
    requires e in MatchedItems(items)
    ensures exists i :: 0 <= i < |items| && FindEmail(Strip(items[i])) == Some(e)
  {
    if FindEmail(Strip(items[0])) != Some(e) {
      MatchedItemsFromItems(items[1..], e);
      var i :| 0 <= i < |items[1..]| && FindEmail(Strip(items[1..][i])) == Some(e);
      assert items[1..][i] == items[i + 1];
    }
  }

  /** `parse_email_list`: every address found, once each. */
  function ParseEmailList(emailString: string): (r: seq<string>)
    ensures Distinct(r)
    ensures forall e :: e in r ==> AddressShape(e)
    ensures forall e :: e in r <==> e in MatchedItems(Split(emailString, ','))
  {
    Dedup(MatchedItems(Split(emailString, ',')))
  }

  /** The matches of two runs of items are the matches of their concatenation. */
  lemma {:induction false} MatchedItemsAppend(a: seq<string>, b: seq<string>)
    ensures MatchedItems(a + b) == MatchedItems(a) + MatchedItems(b)
  {
    if |a| > 0 {
      assert (a + b)[1..] == a[1..] + b;
      MatchedItemsAppend(a[1..], b);
    } else {
      assert a + b == b;
    }
  }

  lemma NoAtNoMatch(items: seq<string>)
    requires |items| == 1 && '@' !in Strip(items[0])
    ensures MatchedItems(items) == []
  {
    assert items[1..] == [];
  }

  /** An item without an '@' contributes nothing, wherever it stands. */
  lemma ItemWithoutAtDropped(a: seq<string>, item: string, b: seq<string>)
    requires '@' !in Strip(item)
    ensures MatchedItems(a + [item] + b) == MatchedItems(a) + MatchedItems(b)
  {
    var ai := a + [item];
    MatchedItemsAppend(ai, b);
    MatchedItemsAppend(a, [item]);
    NoAtNoMatch([item]);
    assert MatchedItems(ai) == MatchedItems(a);
  }

  // ---------------------------------------------------------------------------
  // ContactProfile and extract_basic_info
  // ---------------------------------------------------------------------------

  /** The fields of `ContactProfile` that the pipeline reads or writes. */
  datatype Profile = Profile(
    email: string,
    name: string,
    firstName: string,
    lastName: string,
    organization: string,
    domain: string,
    title: string,
    sector: string,
    influence: int,
    alignment: int,
    accessibility: int,
    resource: int,
    network: int,
    priority: string,
    strategy: string,
    indigenous: bool,
    relevance: string,
    linkedinUrl: string,
    summary: string,
    confidence: string)

  /** `ContactProfile(email=email)` with the dataclass defaults. */
  function NewProfile(email: string): (p: Profile)
    ensures p.email == email && p.priority == "Medium" && p.relevance == "Unknown" && p.confidence == "Low"
    ensures !p.indigenous && p.influence == 0 && p.linkedinUrl == "" && p.sector == ""
  {
    Profile(email, "", "", "", "", "", "", "", 0, 0, 0, 0, 0, "Medium", "", false, "Unknown", "", "", "Low")
  }

  /** The keys of `sector_patterns`, in insertion order, and their sectors. */
  const DomainPatterns: seq<string> := [
    ".gov.au", ".edu.au", "minderoo.org", "paulramsayfoundation.org.au", "justreinvest.org.au",
    "accountablefutures.org.au", "missionaustralia.com.au", "maranguka.org.au", "ngaitahu.iwi.nz",
    "centreforpublicimpact.org", "un.org"]

  const DomainSectors: seq<string> := [
    "Government", "Academic", "Foundation", "Foundation", "Justice Reform NGO",
    "Social Impact NGO", "Social Services NGO", "Indigenous Organization", "Indigenous Organization",
    "Policy Think Tank", "International Organization"]

  const PrivateOther: string := "Private/Other"

  const AddressIndicators: seq<string> := [
    "ngaitahu", "maranguka", "iwi.nz", "aboriginal", "indigenous",
    "torres strait", "koori", "murri", "yolngu", "anangu"]

  /** `email.split('@')[1] if '@' in email else ""`: the text between the first and second '@'. */
  function DomainOf(email: string): (d: string)
    ensures '@' !in d
    ensures '@' !in email ==> d == ""
  {
    if '@' in email then Split(email, '@')[1] else ""
  }

  /** `email.split('@')[0]`: the text before the first '@'. */
  function LocalOf(email: string): (l: string)
    ensures '@' !in l
    ensures '@' in email ==> l == email[..IndexOf(email, '@')]
    ensures '@' !in email ==> l == email
  {
    Split(email, '@')[0]
  }

  /** The name, first name and last name read from a local part. */
  function NameOf(local: string): (r: (string, string, string))
    ensures '.' !in local ==> r == (Title(local), Title(local), "")
  {
    if '.' in local then
      var parts := Split(ReplaceChar(ReplaceChar(local, '_', '.'), '-', '.'), '.');
      if |parts| >= 2 then (Title(parts[0]) + " " + Title(parts[1]), Title(parts[0]), Title(parts[1]))
      else ("", "", "")
    else (Title(local), Title(local), "")
  }

  /** The sector of the first pattern the domain contains, else "Private/Other". */
  function SectorOf(domain: string): (r: string)
    ensures r == PrivateOther <==> !ContainsAny(domain, DomainPatterns)
    ensures r != PrivateOther ==> r in DomainSectors
  {
    FirstContainedIsAny(domain, DomainPatterns);
    var k := FirstContained(domain, DomainPatterns);
    if k < |DomainPatterns| then DomainSectors[k] else PrivateOther
  }

  /** The title-cased first label of a domain with at least two labels, else "". */
  function OrganizationOf(domain: string): (r: string)
    ensures '.' !in domain ==> r == ""
    ensures '.' in domain ==> r == Title(domain[..IndexOf(domain, '.')])
  {
    if domain != "" then
      var parts := Split(domain, '.');
      if |parts| >= 2 then Title(parts[0]) else ""
    else ""
  }

  /** `extract_basic_info` (the date stamp is left out). */
  function ExtractBasicInfo(email: string): (p: Profile)
    ensures p.email == email && p.domain == DomainOf(email)
    ensures p.indigenous <==> ContainsAny(Lower(email), AddressIndicators)
    ensures p.sector == PrivateOther <==> !ContainsAny(p.domain, DomainPatterns)
    ensures p.sector == PrivateOther || p.sector in DomainSectors
    ensures p.priority == "Medium" && p.relevance == "Unknown" && p.confidence == "Low" && p.linkedinUrl == ""
  {
    var domain := DomainOf(email);
    var names := NameOf(LocalOf(email));
    NewProfile(email).(domain := domain, name := names.0, firstName := names.1, lastName := names.2,
                       sector := SectorOf(domain),
                       indigenous := ContainsAny(Lower(email), AddressIndicators),
                       organization := OrganizationOf(domain))
  }

  /** For an address the list parser finds, the domain is everything after
      the '@', and the organisation is the title-cased text before the
      domain's first '.'. */
  lemma ParsedAddressParts(m: string)
    requires AddressShape(m)
    ensures var l := IndexOf(m, '@');
      var p := ExtractBasicInfo(m);
      p.domain == m[l + 1..] && LocalOf(m) == m[..l]
      && p.organization == Title(p.domain[..IndexOf(p.domain, '.')])
  {
    var l := IndexOf(m, '@');
    var pre, post := m[..l], m[l + 1..];
    assert m == pre + "@" + post;
    DomainOfAddress(pre, post);
  }

  /** The domain of `local@domain` is `domain` when neither part has an '@'. */
  lemma DomainOfAddress(local: string, domain: string)
    requires '@' !in local && '@' !in domain
    ensures DomainOf(local + "@" + domain) == domain
  {
    assert local + "@" + domain == local + ['@'] + domain;
    SplitOnce(local, domain, '@');
  }

  /** Any domain containing ".gov.au" is Government, whatever else it contains. */
  lemma GovernmentDomain(email: string)
    requires Contains(DomainOf(email), ".gov.au")
    ensures ExtractBasicInfo(email).sector == "Government"
  {
  }

  /** The local part of `local@domain` is `local`. */
  lemma LocalOfAddress(local: string, domain: string)
    requires '@' !in local
    ensures LocalOf(local + "@" + domain) == local
  {
    var email := local + "@" + domain;
    assert email[|local|] == '@';
    assert IndexOf(email, '@') == |local|;
    assert email[..|local|] == local;
  }

  lemma NameOfDotted(first: string, last: string)
    requires '.' !in first && '_' !in first && '-' !in first
    requires '.' !in last && '_' !in last && '-' !in last
    ensures NameOf(first + "." + last) == (Title(first) + " " + Title(last), Title(first), Title(last))
  {
    var local := first + "." + last;
    assert local == first + ['.'] + last;
    assert local[|first|] == '.';
    assert forall i :: 0 <= i < |local| ==> local[i] != '_' && local[i] != '-' by {
      forall i | 0 <= i < |local|
        ensures local[i] != '_' && local[i] != '-'
      {
        if i < |first| {
          assert local[i] == first[i];
        } else if i > |first| {
          assert local[i] == last[i - |first| - 1];
        }
      }
    }
    var swapped := ReplaceChar(ReplaceChar(local, '_', '.'), '-', '.');
    assert swapped == local;
    SplitOnce(first, last, '.');
  }

  /** A local part `first.last` (no other '.', '_' or '-') names the contact
      "First Last". */
  lemma DottedLocalPart(first: string, last: string, domain: string)
    requires '.' !in first && '_' !in first && '-' !in first && '@' !in first
    requires '.' !in last && '_' !in last && '-' !in last && '@' !in last
    ensures var p := ExtractBasicInfo(first + "." + last + "@" + domain);
      p.name == Title(first) + " " + Title(last) && p.firstName == Title(first) && p.lastName == Title(last)
  {
    var local := first + "." + last;
    assert '@' !in local by {
      assert local == first + ['.'] + last;
    }
    LocalOfAddress(local, domain);
    NameOfDotted(first, last);
    assert first + "." + last + "@" + domain == local + "@" + domain;
  }

  /** A local part without '.' is the whole name and the first name; the last name stays empty. */
  lemma UndottedLocalPart(local: string, domain: string)
    requires '.' !in local && '@' !in local
    ensures var p := ExtractBasicInfo(local + "@" + domain);
      p.name == Title(local) && p.firstName == Title(local) && p.lastName == ""
  {
    LocalOfAddress(local, domain);
  }

  // ---------------------------------------------------------------------------
  // _parse_research_response
  // ---------------------------------------------------------------------------

  const LinkedinPrefix: string := "linkedin.com/in/"

  /** `[\w-]` over ASCII. */
  predicate IsSlugChar(c: char) {
    IsAlnum(c) || c == '_' || c == '-'
  }

  /** `linkedin\.com/in/[\w-]+` matches at `i`, ignoring case in the literal part. */
  predicate LinkedinAt(s: string, i: int) {
    OccursAt(Lower(s), LinkedinPrefix, i) && i + |LinkedinPrefix| < |s| && IsSlugChar(s[i + |LinkedinPrefix|])
  }

  function FirstLinkedinAt(s: string, from: nat): (i: nat)
    requires from <= |s|
    ensures from <= i <= |s|
    ensures i < |s| ==> LinkedinAt(s, i)
    ensures forall j :: from <= j < i ==> !LinkedinAt(s, j)
    decreases |s| - from
  {
    if from == |s| || LinkedinAt(s, from) then from
    else FirstLinkedinAt(s, from + 1)
  }

  /** The whole match at `i`: the prefix as written and the greedy run of slug characters. */
  function LinkedinFrom(s: string, i: int): (r: string)
    requires LinkedinAt(s, i)
    ensures |r| > |LinkedinPrefix| && OccursAt(s, r, i)
    ensures Lower(r[..|LinkedinPrefix|]) == LinkedinPrefix
    ensures forall k :: |LinkedinPrefix| <= k < |r| ==> IsSlugChar(r[k])
    ensures i + |r| < |s| ==> !IsSlugChar(s[i + |r|])
  {
    var n := |LinkedinPrefix|;
    var t := Run(s[i + n..], IsSlugChar);
    var r := s[i..i + n + t];
    assert r[..n] == s[i..i + n];
    LowerSlice(s, i, i + n);
    assert forall k :: n <= k < |r| ==> r[k] == s[i + n..][k - n];
    r
  }

  /** `re.search(r'linkedin\.com/in/[\w-]+', data, re.IGNORECASE)` */
  function LinkedinMatch(data: string): (r: Option<string>)
    ensures r.None? <==> forall i :: 0 <= i < |data| ==> !LinkedinAt(data, i)
    ensures r.Some? ==> Contains(data, r.value) && |r.value| > |LinkedinPrefix| && Lower(r.value[..|LinkedinPrefix|]) == LinkedinPrefix
  {
    var i := FirstLinkedinAt(data, 0);
    if i < |data| then
      var m := LinkedinFrom(data, i);
      assert OccursAt(data, m, i);
      Some(m)
    else None
  }

  /** `research_data[:500] + "..." if len(research_data) > 500 else research_data` */
  function Summary(data: string): (r: string)
    ensures |r| <= 503
    ensures |data| <= 500 ==> r == data
    ensures |data| > 500 ==> |r| == 503 && r[..500] == data[..500] && r[500..] == "..."
  {
    if |data| > 500 then data[..500] + "..." else data
  }

  const JusticeKeywords: seq<string> := [
    "youth justice", "criminal justice", "juvenile justice", "justice reform",
    "prison reform", "rehabilitation", "recidivism", "young offender",
    "community justice", "restorative justice", "diversion program"]

  const ResearchIndigenousKeywords: seq<string> := [
    "indigenous", "aboriginal", "torres strait", "first nations", "maori"]

  /** High from three matched keywords, Medium from one, else Low. */
  function Grade(count: nat): (g: string)
    ensures g in {"High", "Medium", "Low"}
    ensures g == "High" <==> count >= 3
    ensures g == "Low" <==> count == 0
  {
    if count >= 3 then "High" else if count >= 1 then "Medium" else "Low"
  }

  function GradeRank(g: string): nat {
    if g == "High" then 3 else if g == "Medium" then 2 else if g == "Low" then 1 else 0
  }

  function ResearchGrade(data: string): (g: string)
    ensures g == "Low" <==> !ContainsAny(Lower(data), JusticeKeywords)
  {
    Grade(CountContained(Lower(data), JusticeKeywords))
  }

  /** `_parse_research_response` */
  function ParseResearchResponse(p: Profile, data: string): (r: Profile)
    ensures r == p.(linkedinUrl := r.linkedinUrl, summary := r.summary, relevance := r.relevance, indigenous := r.indigenous)
    ensures LinkedinMatch(data).Some? ==> r.linkedinUrl == "https://" + LinkedinMatch(data).value
    ensures LinkedinMatch(data).None? ==> r.linkedinUrl == p.linkedinUrl
    ensures r.summary == Summary(data)
    ensures r.relevance == ResearchGrade(data)
    ensures r.indigenous <==> p.indigenous || ContainsAny(Lower(data), ResearchIndigenousKeywords)
  {
    var url := match LinkedinMatch(data)
      case Some(m) => "https://" + m
      case None => p.linkedinUrl;
    p.(linkedinUrl := url, summary := Summary(data), relevance := ResearchGrade(data),
       indigenous := p.indigenous || ContainsAny(Lower(data), ResearchIndigenousKeywords))
  }

  /** Research text that contains other research text is graded at least as high. */
  lemma GradeMonotone(a: string, b: string)
    requires Contains(b, a)
    ensures GradeRank(ResearchGrade(a)) <= GradeRank(ResearchGrade(b))
  {
    LowerKeepsContains(a, b);
    CountContainedMonotone(Lower(a), Lower(b), JusticeKeywords);
  }

  /** Research never clears the indigenous flag set from the address. */
  lemma ResearchKeepsIndigenous(p: Profile, data: string)
    requires p.indigenous
    ensures ParseResearchResponse(p, data).indigenous
  {
  }

  // ---------------------------------------------------------------------------
  // research_contact_ai
  // ---------------------------------------------------------------------------

  /** What `_query_perplexity` hands back: nothing (no Perplexity key, an
      error status or a failed request, all caught there), the `content` of
      the first choice as text, or a `content` that is truthy but not a
      string (a JSON list, object or number), on which the `.lower()` of
      `_parse_research_response` raises. */
  datatype Reply = NoResearch | ResearchText(text: string) | NonStringContent

  /** `research_contact_ai`: without any key the profile is returned as it
      is; research text grades the profile "High"; a reply the parser cannot
      lower-case is caught and grades it "Low"; anything else leaves it
      unchanged. Only a Perplexity key leads to a request: with just an
      OpenAI key the query answers None. */
  function ResearchContactAi(p: Profile, perplexityKey: bool, openaiKey: bool, reply: Reply): (r: Profile)
    ensures !perplexityKey ==> r == p
    ensures reply.NoResearch? || reply == ResearchText("") ==> r == p
    ensures perplexityKey && reply.ResearchText? && reply.text != "" ==>
              r == ParseResearchResponse(p, reply.text).(confidence := "High")
    ensures perplexityKey && reply.NonStringContent? ==> r == p.(confidence := "Low")
    ensures r.confidence == "High" && p.confidence != "High" ==>
              perplexityKey && reply.ResearchText? && reply.text != ""
  {
    if !perplexityKey && !openaiKey then p
    else
      var data := if perplexityKey then reply else NoResearch;
      match data
      case NoResearch => p
      case ResearchText(text) => if text != "" then ParseResearchResponse(p, text).(confidence := "High") else p
      case NonStringContent => p.(confidence := "Low")
  }

  /** An OpenAI key alone never changes the profile: the research query only asks Perplexity. */
  lemma OpenAiKeyAloneChangesNothing(p: Profile, reply: Reply)
    ensures ResearchContactAi(p, false, true, reply) == p
  {
  }

  // ---------------------------------------------------------------------------
  // calculate_strategic_scores
  // ---------------------------------------------------------------------------

  /** Index of the first entry of `table` with key `key`, or |table|. */
  function KeyIndex(table: seq<(string, int)>, key: string): (k: nat)
    ensures k <= |table|
    ensures k < |table| ==> table[k].0 == key
    ensures forall j :: 0 <= j < k ==> table[j].0 != key
  {
    if |table| == 0 then 0
    else if table[0].0 == key then 0
    else 1 + KeyIndex(table[1..], key)
  }

  /** `dict.get(key, default)` over a table of distinct keys. */
  function Lookup(table: seq<(string, int)>, key: string, default: int): (r: int)
    ensures (forall j :: 0 <= j < |table| ==> table[j].0 != key) ==> r == default
    ensures forall j :: 0 <= j < |table| && table[j].0 == key && (forall i :: 0 <= i < j ==> table[i].0 != key) ==> r == table[j].1
  {
    var k := KeyIndex(table, key);
    if k < |table| then table[k].1 else default
  }

  /** The value found is one of the table's values or the default. */
  lemma LookupWithin(table: seq<(string, int)>, key: string, default: int, lo: int, hi: int)
    requires lo <= default <= hi
    requires forall j :: 0 <= j < |table| ==> lo <= table[j].1 <= hi
    ensures lo <= Lookup(table, key, default) <= hi
  {
  }

  const InfluenceTable: seq<(string, int)> := [
    ("Government", 4), ("Foundation", 4), ("Academic", 3), ("Policy Think Tank", 4),
    ("International Organization", 5)]

  const AccessibilityTable: seq<(string, int)> := [
    ("Academic", 4), ("NGO", 4), ("Foundation", 3), ("Government", 2), ("International Organization", 2)]

  const ResourceTable: seq<(string, int)> := [
    ("Foundation", 5), ("Government", 4), ("International Organization", 4), ("Academic", 3)]

  const NetworkTable: seq<(string, int)> := [
    ("Government", 4), ("Foundation", 4), ("Policy Think Tank", 4), ("Academic", 3)]

  const SeniorKeywords: seq<string> := ["director", "manager", "head", "chief", "senior", "lead"]

  function MinInt(a: int, b: int): int {
    if a <= b then a else b
  }

  function InfluenceScore(sector: string, title: string): (r: int)
    ensures 2 <= r <= 5
  {
    LookupWithin(InfluenceTable, sector, 2, 2, 5);
    var base := Lookup(InfluenceTable, sector, 2);
    if ContainsAny(Lower(title), SeniorKeywords) then MinInt(5, base + 1) else base
  }

  function AlignmentScore(relevance: string, sector: string): (r: int)
    ensures 2 <= r <= 5
  {
    if relevance == "High" then 5
    else if relevance == "Medium" then 3
    else if sector in ["Justice Reform NGO", "Social Impact NGO"] then 4
    else 2
  }

  /** The accessibility looked up by the sector's first word ('Other' for no
      sector); None where `split()[0]` raises, a sector of whitespace only. */
  function AccessibilityScore(sector: string): (r: Option<int>)
    ensures r.None? <==> sector != "" && forall i :: 0 <= i < |sector| ==> IsSpace(sector[i])
    ensures r.Some? ==> 2 <= r.value <= 4
  {
    LookupWithin(AccessibilityTable, "Other", 3, 2, 4);
    if sector == "" then Some(Lookup(AccessibilityTable, "Other", 3))
    else
      var words := Words(sector);
      WordsOfBlank(sector);
      if |words| == 0 then None
      else
        LookupWithin(AccessibilityTable, words[0], 3, 2, 4);
        Some(Lookup(AccessibilityTable, words[0], 3))
  }

  function NetworkScore(sector: string, linkedinUrl: string): (r: int)
    ensures 2 <= r <= 5
  {
    LookupWithin(NetworkTable, sector, 2, 2, 4);
    var base := Lookup(NetworkTable, sector, 2);
    if linkedinUrl != "" then MinInt(5, base + 1) else base
  }

  function PriorityOf(total: int): (r: string)
    ensures r == "High" <==> total >= 20
    ensures r == "Medium" <==> 15 <= total < 20
    ensures r == "Low" <==> total < 15
  {
    if total >= 20 then "High" else if total >= 15 then "Medium" else "Low"
  }

  function StrategyOf(sector: string): (r: string)
    ensures r == "Formal policy briefing" <==> sector == "Government"
    ensures r == "Research collaboration invitation" <==> sector == "Academic"
    ensures r == "Collaborative partnership discussion" <==> sector in ["Foundation", "NGO"]
  {
    if sector == "Government" then "Formal policy briefing"
    else if sector in ["Foundation", "NGO"] then "Collaborative partnership discussion"
    else if sector == "Academic" then "Research collaboration invitation"
    else "Informational networking meeting"
  }

  function Total(p: Profile): int {
    p.influence + p.alignment + p.accessibility + p.resource + p.network
  }

  /** `calculate_strategic_scores`; None where the accessibility lookup raises. */
  function CalculateStrategicScores(p: Profile): (r: Option<Profile>)
    ensures r.None? <==> p.sector != "" && forall i :: 0 <= i < |p.sector| ==> IsSpace(p.sector[i])
    ensures r.Some? ==> var q := r.value;
      q == p.(influence := q.influence, alignment := q.alignment, accessibility := q.accessibility,
              resource := q.resource, network := q.network, priority := q.priority, strategy := q.strategy)
      && 2 <= q.influence <= 5 && 2 <= q.alignment <= 5 && 2 <= q.accessibility <= 4
      && 2 <= q.resource <= 5 && 2 <= q.network <= 5
      && 10 <= Total(q) <= 24
      && (q.priority == "High" <==> Total(q) >= 20)
      && (q.priority == "Medium" <==> 15 <= Total(q) < 20)
      && (q.priority == "Low" <==> Total(q) < 15)
  {
    match AccessibilityScore(p.sector)
    case None => None
    case Some(access) => Some(Scored(p, access))
  }

  /** The profile with its five scores, priority and strategy filled in, given its accessibility. */
  function Scored(p: Profile, access: int): (q: Profile)
    requires 2 <= access <= 4
    ensures q == p.(influence := q.influence, alignment := q.alignment, accessibility := q.accessibility,
                    resource := q.resource, network := q.network, priority := q.priority, strategy := q.strategy)
    ensures q.accessibility == access
    ensures 2 <= q.influence <= 5 && 2 <= q.alignment <= 5
    ensures 2 <= q.resource <= 5 && 2 <= q.network <= 5
    ensures 10 <= Total(q) <= 24
    ensures q.priority == PriorityOf(Total(q))
  {
    LookupWithin(ResourceTable, p.sector, 2, 2, 5);
    var q := p.(influence := InfluenceScore(p.sector, p.title),
                alignment := AlignmentScore(p.relevance, p.sector),
                accessibility := access,
                resource := Lookup(ResourceTable, p.sector, 2),
                network := NetworkScore(p.sector, p.linkedinUrl));
    q.(priority := PriorityOf(Total(q)), strategy := StrategyOf(p.sector))
  }

  /** Every sector the address rules assign can be scored. */
  lemma ExtractedProfilesScore(email: string)
    ensures CalculateStrategicScores(ExtractBasicInfo(email)).Some?
  {
    var p := ExtractBasicInfo(email);
    SectorNotBlank(p.sector);
  }

  lemma SectorNotBlank(s: string)
    requires s == PrivateOther || s in DomainSectors
    ensures |s| > 0 && !IsSpace(s[0])
  {
    if s != PrivateOther {
      var k :| 0 <= k < |DomainSectors| && DomainSectors[k] == s;
      assert IsUpperChar(DomainSectors[k][0]);
    }
  }

  /** "International Organization" is looked up by its first word, which the
      accessibility table lacks, so it gets the default 3 and never its own entry 2. */
  lemma InternationalAccessibility(p: Profile)
    requires p.sector == "International Organization"
    ensures CalculateStrategicScores(p).Some?
    ensures CalculateStrategicScores(p).value.accessibility == 3
  {
    InternationalFirstWord(p.sector);
    InternationalFirstWordUnlisted(p);
  }

  /** A sector whose first word is "International" is looked up by that word. */
  lemma InternationalFirstWord(sector: string)
    requires |sector| >= 14 && sector[..13] == "International" && sector[13] == ' '
    ensures AccessibilityScore(sector) == Some(Lookup(AccessibilityTable, sector[..13], 3))
  {
    var w, rest := sector[..13], sector[14..];
    assert forall i :: 0 <= i < |w| ==> !IsSpace(w[i]);
    AccessibilityOfTwoWords(w, rest);
    assert w + " " + rest == sector;
  }

  lemma InternationalFirstWordUnlisted(p: Profile)
    requires p.sector == "International Organization"
    ensures Lookup(AccessibilityTable, p.sector[..13], 3) == 3
  {
  }

  /** A sector of one word is looked up whole. */
  lemma AccessibilityOfOneWord(sector: string)
    requires |sector| > 0 && forall i :: 0 <= i < |sector| ==> !IsSpace(sector[i])
    ensures AccessibilityScore(sector) == Some(Lookup(AccessibilityTable, sector, 3))
  {
    SingleWord(sector);
  }

  /** A sector `w rest` is looked up by `w` alone. */
  lemma AccessibilityOfTwoWords(w: string, rest: string)
    requires |w| > 0 && forall i :: 0 <= i < |w| ==> !IsSpace(w[i])
    ensures AccessibilityScore(w + " " + rest) == Some(Lookup(AccessibilityTable, w, 3))
  {
    FirstWord(w, rest);
  }

  /** For a justice NGO, research graded Medium lowers the alignment from 4 to 3. */
  lemma MediumRelevanceLowersNgoAlignment(p: Profile)
    requires p.sector == "Justice Reform NGO" || p.sector == "Social Impact NGO"
    ensures AlignmentScore("Medium", p.sector) == 3 < AlignmentScore("Low", p.sector) == 4
    ensures AlignmentScore("Unknown", p.sector) == 4
  {
  }

  function PriorityRank(priority: string): nat {
    if priority == "High" then 2 else if priority == "Medium" then 1 else 0
  }

  /** A LinkedIn URL never lowers the priority of a profile that can be
      scored (its sector is empty or not all whitespace). */
  lemma LinkedinNeverLowersPriority(p: Profile, url: string)
    requires p.sector == "" || exists i :: 0 <= i < |p.sector| && !IsSpace(p.sector[i])
    requires p.linkedinUrl == ""
    ensures CalculateStrategicScores(p).Some?
    ensures CalculateStrategicScores(p.(linkedinUrl := url)).Some?
    ensures PriorityRank(CalculateStrategicScores(p).value.priority)
            <= PriorityRank(CalculateStrategicScores(p.(linkedinUrl := url)).value.priority)
  {
    var q := p.(linkedinUrl := url);
    var access := AccessibilityScore(p.sector).value;
    var a, b := Scored(p, access), Scored(q, access);
    assert CalculateStrategicScores(q) == Some(b);
    assert NetworkScore(p.sector, "") <= NetworkScore(p.sector, url);
    assert Total(a) <= Total(b);
  }

  /** A Private/Other contact scores at most 16 and is never High priority. */
  lemma PrivateNeverHigh(p: Profile)
    requires p.sector == PrivateOther
    ensures CalculateStrategicScores(p).Some?
    ensures Total(CalculateStrategicScores(p).value) <= 16
    ensures CalculateStrategicScores(p).value.priority != "High"
  {
    PrivateAccessibility(p);
    PrivateUnlisted(p);
    PrivateOtherTables(p);
    var q := CalculateStrategicScores(p).value;
    assert q.influence <= 3 && q.network <= 3 && q.resource == 2 && q.accessibility == 3;
  }

  lemma PrivateAccessibility(p: Profile)
    requires p.sector == PrivateOther
    ensures AccessibilityScore(p.sector) == Some(Lookup(AccessibilityTable, p.sector, 3))
  {
    assert forall i :: 0 <= i < |p.sector| ==> !IsSpace(p.sector[i]);
    AccessibilityOfOneWord(p.sector);
  }

  lemma PrivateOtherTables(p: Profile)
    requires p.sector == PrivateOther
    ensures Lookup(InfluenceTable, p.sector, 2) == 2 && Lookup(ResourceTable, p.sector, 2) == 2
    ensures Lookup(NetworkTable, p.sector, 2) == 2
  {
  }

  lemma PrivateUnlisted(p: Profile)
    requires p.sector == PrivateOther
    ensures Lookup(AccessibilityTable, p.sector, 3) == 3
  {
  }

  // ---------------------------------------------------------------------------
  // DatabaseManager.merge_contacts
  // ---------------------------------------------------------------------------

  type Row = map<string, string>

  /** A data frame: its columns and its rows (a row lacks the columns it has no value in). */
  datatype Frame = Frame(columns: set<string>, rows: seq<Row>)

  /** `DataFrame.empty`: no rows or no columns. */
  predicate IsEmpty(f: Frame) {
    |f.rows| == 0 || f.columns == {}
  }

  /** Decimal text of an integer score. */
  function IntText(n: int): (r: string)
    ensures |r| > 0
    decreases if n < 0 then 1 - n else n
  {
    if n < 0 then "-" + IntText(-n)
    else if n < 10 then [(n + '0' as int) as char]
    else IntText(n / 10) + [(n % 10 + '0' as int) as char]
  }

  const ProfileColumns: set<string> := {
    "email", "name", "first_name", "last_name", "organization", "domain", "title", "sector",
    "influence_score", "alignment_score", "accessibility_score", "resource_score", "network_score",
    "priority_level", "engagement_strategy", "indigenous_affiliation", "youth_justice_relevance",
    "linkedin_url", "research_summary", "research_confidence"}

  /** `asdict(profile)` as a row. */
  function ProfileRow(p: Profile): (r: Row)
    ensures "email" in r && r["email"] == p.email
  {
    ProfileCells(p)["email" := p.email]
  }

  /** The cells of a profile row other than its email. */
  function ProfileCells(p: Profile): Row {
    map["name" := p.name, "first_name" := p.firstName, "last_name" := p.lastName,
        "organization" := p.organization, "domain" := p.domain, "title" := p.title, "sector" := p.sector,
        "influence_score" := IntText(p.influence), "alignment_score" := IntText(p.alignment),
        "accessibility_score" := IntText(p.accessibility), "resource_score" := IntText(p.resource),
        "network_score" := IntText(p.network), "priority_level" := p.priority,
        "engagement_strategy" := p.strategy,
        "indigenous_affiliation" := (if p.indigenous then "True" else "False"),
        "youth_justice_relevance" := p.relevance, "linkedin_url" := p.linkedinUrl,
        "research_summary" := p.summary, "research_confidence" := p.confidence]
  }

  /** `pd.DataFrame([asdict(p) for p in profiles])`: no columns at all when there are no profiles. */
  function ProfileFrame(profiles: seq<Profile>): (f: Frame)
    ensures |f.rows| == |profiles|
    ensures forall i :: 0 <= i < |profiles| ==> f.rows[i] == ProfileRow(profiles[i])
    ensures |profiles| > 0 ==> "email" in f.columns
  {
    Frame(if |profiles| == 0 then {} else ProfileColumns,
          seq(|profiles|, i requires 0 <= i < |profiles| => ProfileRow(profiles[i])))
  }

  /** The `email` cell of a row; None stands for the missing value, which
      `drop_duplicates` treats as equal to every other missing value. */
  function EmailKey(row: Row): Option<string> {
    if "email" in row then Some(row["email"]) else None
  }

  /** The frame before deduplication: the new frame alone when the existing one is empty. */
  function Stacked(existing: Frame, profiles: seq<Profile>): Frame {
    var incoming := ProfileFrame(profiles);
    if IsEmpty(existing) then incoming
    else Frame(existing.columns + incoming.columns, existing.rows + incoming.rows)
  }

  /** `merge_contacts`; None where `drop_duplicates(subset=['email'])` raises
      KeyError because the stacked frame has no email column. */
  function MergeContacts(existing: Frame, profiles: seq<Profile>): (r: Option<Frame>)
    ensures r.None? <==> |profiles| == 0 && (IsEmpty(existing) || "email" !in existing.columns)
    ensures r.Some? ==> DistinctKeys(r.value.rows, EmailKey)
    ensures r.Some? ==> Keys(r.value.rows, EmailKey) == Keys(Stacked(existing, profiles).rows, EmailKey)
    ensures r.Some? ==> forall row :: row in r.value.rows ==> row in Stacked(existing, profiles).rows
  {
    var merged := Stacked(existing, profiles);
    if "email" !in merged.columns then None
    else Some(Frame(merged.columns, KeepLastBy(merged.rows, EmailKey)))
  }

  /** Where the rows of the stacked frame come from: the existing rows
      first (unless the existing frame is empty), then one row per profile. */
  function Offset(existing: Frame): nat {
    if IsEmpty(existing) then 0 else |existing.rows|
  }

  lemma StackedRows(existing: Frame, profiles: seq<Profile>)
    ensures |Stacked(existing, profiles).rows| == Offset(existing) + |profiles|
    ensures forall k :: 0 <= k < Offset(existing) ==> Stacked(existing, profiles).rows[k] == existing.rows[k]
    ensures forall k :: 0 <= k < |profiles| ==>
      Stacked(existing, profiles).rows[Offset(existing) + k] == ProfileRow(profiles[k])
  {
  }

  lemma ProfileEmailKey(p: Profile)
    ensures EmailKey(ProfileRow(p)) == Some(p.email)
  {
  }

  /** A new profile that is the last one with its address always survives
      the merge: new profiles supersede existing rows with the same email. */
  lemma NewProfileSupersedes(existing: Frame, profiles: seq<Profile>, i: int)
    requires 0 <= i < |profiles|
    requires forall j :: i < j < |profiles| ==> profiles[j].email != profiles[i].email
    ensures MergeContacts(existing, profiles).Some?
    ensures ProfileRow(profiles[i]) in MergeContacts(existing, profiles).value.rows
  {
    var merged := Stacked(existing, profiles);
    var incoming := ProfileFrame(profiles);
    var at := if IsEmpty(existing) then i else |existing.rows| + i;
    assert merged.rows[at] == ProfileRow(profiles[i]);
    ProfileEmailKey(profiles[i]);
    forall j | at < j < |merged.rows|
      ensures EmailKey(merged.rows[j]) != EmailKey(merged.rows[at])
    {
      var k := if IsEmpty(existing) then j else j - |existing.rows|;
      assert merged.rows[j] == ProfileRow(profiles[k]);
      ProfileEmailKey(profiles[k]);
    }
    LastOfKeyKept(merged.rows, EmailKey, at);
  }

  /** An existing row whose email no new profile carries, and which is the
      last existing row with that email, is kept. */
  lemma UntouchedRowKept(existing: Frame, profiles: seq<Profile>, i: int)
    requires !IsEmpty(existing) && "email" in existing.columns
    requires 0 <= i < |existing.rows|
    requires forall j :: i < j < |existing.rows| ==> EmailKey(existing.rows[j]) != EmailKey(existing.rows[i])
    requires forall p :: p in profiles ==> EmailKey(existing.rows[i]) != Some(p.email)
    ensures MergeContacts(existing, profiles).Some?
    ensures existing.rows[i] in MergeContacts(existing, profiles).value.rows
  {
    var rows := Stacked(existing, profiles).rows;
    var off := Offset(existing);
    StackedRows(existing, profiles);
    forall j | i < j < |rows|
      ensures EmailKey(rows[j]) != EmailKey(rows[i])
    {
      if j >= off {
        assert rows[j] == ProfileRow(profiles[j - off]);
        assert profiles[j - off] in profiles;
      }
    }
    LastOfKeyKept(rows, EmailKey, i);
    assert MergeContacts(existing, profiles).value.rows == KeepLastBy(rows, EmailKey);
  }
}
