/** `EmailFinder` of scripts/research-contact-enrichment.py: candidate
    addresses from a name and a domain, candidate domains from an
    organisation name, and the combination `find_emails_for_contact`. The
    Hunter.io lookup and the DNS MX check are oracles. */
module EmailFinder {
  import opened Strings
  import opened Wrappers
  import opened KeyedDedup

  /** `s` ends with `suffix`. */
  predicate EndsWith(s: string, suffix: string) {
    |s| >= |suffix| && s[|s| - |suffix|..] == suffix
  }

  /** The ten local parts of `generate_email_patterns`, in the order written. */
  function LocalParts(first: string, last: string): (r: seq<string>)
    requires |first| > 0 && |last| > 0
    ensures |r| == 10
  {
    [first + "." + last, first + "_" + last, first + last, [first[0]] + last,
     first + [last[0]], first + "." + [last[0]], [first[0]] + "." + last,
     last + "." + first, last + "_" + first, last + first]
  }

  /** The ten addresses, local part then "@" then the domain. */
  function Addresses(first: string, last: string, domain: string): (r: seq<string>)
    requires |first| > 0 && |last| > 0
    ensures |r| == 10
    ensures forall k :: 0 <= k < 10 ==> r[k] == LocalParts(first, last)[k] + "@" + domain
  {
    var locals := LocalParts(first, last);
    seq(10, k requires 0 <= k < 10 => locals[k] + "@" + domain)
  }

  /** `generate_email_patterns`: the ten addresses without repeats; None
      stands for the `IndexError` that `first[0]` or `last[0]` raises when a
      name is blank. The source returns `list(set(...))`, whose order is
      Python's hash order; this lists the set in first-occurrence order, and
      `PatternEntries`, the one place the order matters, rearranges it with a
      `SetOrder`. */
  function GenerateEmailPatterns(firstName: string, lastName: string, domain: string): (r: Option<seq<string>>)
    ensures r.Some? <==> Strip(Lower(firstName)) != "" && Strip(Lower(lastName)) != ""
    ensures r.Some? ==> Distinct(r.value) && |r.value| <= 10
    ensures r.Some? ==> forall p :: p in r.value <==> p in Addresses(Strip(Lower(firstName)), Strip(Lower(lastName)), domain)
  {
    var first := Strip(Lower(firstName));
    var last := Strip(Lower(lastName));
    if first == "" || last == "" then None
    else Some(Dedup(Addresses(first, last, domain)))
  }

  /** No local part contains '@' when neither name does. */
  lemma LocalPartsHaveNoAt(first: string, last: string)
    requires |first| > 0 && |last| > 0 && '@' !in first && '@' !in last
    ensures forall k :: 0 <= k < 10 ==> '@' !in LocalParts(first, last)[k]
  {
  }

  /** Each generated address ends with "@" + domain, and when no name or the
      domain contains '@', the domain is exactly what `verify_email_domain`'s
      `email.split('@')[1]` gives back. */
  lemma PatternsSplitToDomain(firstName: string, lastName: string, domain: string, p: string)
    requires GenerateEmailPatterns(firstName, lastName, domain).Some?
    requires p in GenerateEmailPatterns(firstName, lastName, domain).value
    ensures EndsWith(p, "@" + domain)
    ensures '@' !in firstName && '@' !in lastName && '@' !in domain ==>
              |Split(p, '@')| == 2 && Split(p, '@')[1] == domain
  {
    var first := Strip(Lower(firstName));
    var last := Strip(Lower(lastName));
    var k :| 0 <= k < 10 && Addresses(first, last, domain)[k] == p;
    var local := LocalParts(first, last)[k];
    assert p == local + "@" + domain;
    AddressEndsWithDomain(local, domain);
    if '@' !in firstName && '@' !in lastName && '@' !in domain {
      StripLowerKeepsAbsent(firstName, '@');
      StripLowerKeepsAbsent(lastName, '@');
      LocalPartsHaveNoAt(first, last);
      AddressSplitsToDomain(local, domain);
    }
  }

  lemma AddressEndsWithDomain(local: string, domain: string)
    ensures EndsWith(local + "@" + domain, "@" + domain)
  {
    var p := local + "@" + domain;
    assert p[|p| - |"@" + domain|..] == "@" + domain;
  }

  /** An address whose parts hold no '@' splits back into its parts. */
  lemma AddressSplitsToDomain(local: string, domain: string)
    requires '@' !in local && '@' !in domain
    ensures Split(local + "@" + domain, '@') == [local, domain]
  {
    assert local + "@" + domain == local + ['@'] + domain;
    SplitOnce(local, domain, '@');
  }

  // ---------------------------------------------------------------------------
  // Candidate domains
  // ---------------------------------------------------------------------------

  /** `re.sub(r'[^a-zA-Z0-9\s]', '', s)`: keeps letters, digits and whitespace. */
  function CleanOrg(s: string): (r: string)
    ensures |r| <= |s|
    ensures forall i :: 0 <= i < |r| ==> IsAlnum(r[i]) || IsSpace(r[i])
  {
    if |s| == 0 then ""
    else if IsAlnum(s[0]) || IsSpace(s[0]) then [s[0]] + CleanOrg(s[1..])
    else CleanOrg(s[1..])
  }

  const DomainSuffixes: seq<string> := [".org.au", ".com.au", ".gov.au", ".edu.au", ".org", ".com"]

  /** The first word of the cleaned, lower-cased organisation, if there is one. */
  function PrimaryWord(organisation: string): (r: Option<string>)
    ensures r.Some? ==> |r.value| > 0 && forall i :: 0 <= i < |r.value| ==> IsAlnum(r.value[i])
  {
    var clean := CleanOrg(Lower(organisation));
    var words := Words(clean);
    if |words| == 0 then None
    else
      FirstWordChars(clean);
      Some(words[0])
  }

  /** `domains_to_try`: the primary word with the six suffixes in order, or
      nothing for a blank organisation. */
  function DomainCandidates(organisation: string): (r: seq<string>)
    ensures |r| == 0 || |r| == 6
    ensures |r| == 0 <==> Strip(organisation) == "" || PrimaryWord(Strip(organisation)).None?
    ensures |r| == 6 ==> forall k :: 0 <= k < 6 ==>
              r[k] == PrimaryWord(Strip(organisation)).value + DomainSuffixes[k]
  {
    var org := Strip(organisation);
    if org == "" then []
    else
      match PrimaryWord(org)
      case None => []
      case Some(p) => seq(6, k requires 0 <= k < 6 => p + DomainSuffixes[k])
  }

  /** No candidate domain contains '@' or a blank. */
  lemma DomainCandidatesAreClean(organisation: string)
    ensures forall d :: d in DomainCandidates(organisation) ==> '@' !in d && ' ' !in d
  {
    var r := DomainCandidates(organisation);
    if |r| == 6 {
      var p := PrimaryWord(Strip(organisation)).value;
      SuffixesClean();
      forall k | 0 <= k < 6
        ensures '@' !in r[k] && ' ' !in r[k]
      {
        CleanConcat(p, DomainSuffixes[k]);
      }
    }
  }

  lemma SuffixesClean()
    ensures forall k :: 0 <= k < |DomainSuffixes| ==> '@' !in DomainSuffixes[k] && ' ' !in DomainSuffixes[k]
  {
  }

  lemma CleanConcat(p: string, suffix: string)
    requires forall i :: 0 <= i < |p| ==> IsAlnum(p[i])
    requires '@' !in suffix && ' ' !in suffix
    ensures '@' !in p + suffix && ' ' !in p + suffix
  {
    var d := p + suffix;
    forall i | 0 <= i < |d|
      ensures d[i] != '@' && d[i] != ' '
    {
      if i >= |p| {
        assert d[i] == suffix[i - |p|];
      }
    }
  }

  // ---------------------------------------------------------------------------
  // find_emails_for_contact
  // ---------------------------------------------------------------------------

  /** The emails and confidences Hunter.io returns for a domain (API key,
      cache and network errors included). */
  type HunterOracle = string -> seq<(string, real)>

  /** Whether `verify_email_domain` accepts an address. */
  type MxOracle = string -> bool

  function Min(a: int, b: int): int { if a <= b then a else b }

  /** Hunter.io results for each domain in turn. */
  function HunterResults(domains: seq<string>, hunter: HunterOracle): (r: seq<(string, real)>)
    ensures forall e :: e in r <==> exists k :: 0 <= k < |domains| && e in hunter(domains[k])
  {
    if |domains| == 0 then [] else hunter(domains[0]) + HunterResults(domains[1..], hunter)
  }

  /** How `list(set(xs))` lists the distinct strings `xs`: some arrangement
      of them, fixed by the interpreter's string hashing. */
  type SetOrder = seq<string> -> seq<string>

  /** `order` rearranges every list without repeats. */
  ghost predicate ListsSets(order: SetOrder) {
    forall xs :: Distinct(xs) ==> multiset(order(xs)) == multiset(xs)
  }

  /** The first five patterns of a domain that pass the MX check, each at confidence 0.3. */
  function PatternResults(domains: seq<string>, first: string, last: string, order: SetOrder, mx: MxOracle): (r: seq<(string, real)>)
    requires ListsSets(order)
    ensures |r| <= 5 * |domains|
    ensures forall e :: e in r ==> e.1 == 0.3 && mx(e.0)
    ensures forall e :: e in r ==> exists k :: 0 <= k < |domains| && EndsWith(e.0, "@" + domains[k])
  {
    if |domains| == 0 then []
    else
      var rest := PatternResults(domains[1..], first, last, order, mx);
      var mine := PatternEntries(first, last, domains[0], order);
      var picked := Filter(mine, mx);
      assert forall e :: e in rest ==> exists k :: 0 <= k < |domains| && EndsWith(e.0, "@" + domains[k]) by {
        forall e | e in rest
          ensures exists k :: 0 <= k < |domains| && EndsWith(e.0, "@" + domains[k])
        {
          var k :| 0 <= k < |domains[1..]| && EndsWith(e.0, "@" + domains[1..][k]);
          assert domains[1..][k] == domains[k + 1];
        }
      }
      picked + rest
  }

  /** `patterns[:5]` of `generate_email_patterns` for one domain, at
      confidence 0.3: five different generated addresses, or all of them
      when there are fewer, whichever five the set order lists first. */
  function PatternEntries(first: string, last: string, domain: string, order: SetOrder): (r: seq<(string, real)>)
    requires ListsSets(order)
    ensures |r| <= 5
    ensures GenerateEmailPatterns(first, last, domain).None? ==> |r| == 0
    ensures GenerateEmailPatterns(first, last, domain).Some? ==>
              |r| == Min(5, |GenerateEmailPatterns(first, last, domain).value|)
              && forall e :: e in r ==> e.0 in GenerateEmailPatterns(first, last, domain).value
    ensures forall e :: e in r ==> e.1 == 0.3 && EndsWith(e.0, "@" + domain)
    ensures forall i, j :: 0 <= i < j < |r| ==> r[i].0 != r[j].0
  {
    var g := GenerateEmailPatterns(first, last, domain);
    if g.None? then []
    else
      var listed := order(g.value);
      var top := listed[..Min(5, |listed|)];
      TopPatterns(first, last, domain, listed, top);
      AtConfidence(top)
  }

  /** Each address paired with the pattern confidence 0.3. */
  function AtConfidence(top: seq<string>): (r: seq<(string, real)>)
    ensures |r| == |top|
    ensures forall i :: 0 <= i < |r| ==> r[i] == (top[i], 0.3)
  {
    seq(|top|, i requires 0 <= i < |top| => (top[i], 0.3))
  }

  /** The first five of a listing of the patterns are distinct patterns ending in the domain. */
  lemma TopPatterns(first: string, last: string, domain: string, listed: seq<string>, top: seq<string>)
    requires GenerateEmailPatterns(first, last, domain).Some?
    requires multiset(listed) == multiset(GenerateEmailPatterns(first, last, domain).value)
    requires top == listed[..Min(5, |listed|)]
    ensures |top| == Min(5, |GenerateEmailPatterns(first, last, domain).value|)
    ensures forall p :: p in top ==> p in GenerateEmailPatterns(first, last, domain).value && EndsWith(p, "@" + domain)
    ensures Distinct(top)
  {
    var ps := GenerateEmailPatterns(first, last, domain).value;
    ListedPatterns(ps, listed);
    assert forall p :: p in top ==> p in listed;
    PatternsEndWithDomain(first, last, domain, top);
  }

  /** A rearrangement of distinct patterns has their length, their members and no repeats. */
  lemma ListedPatterns(ps: seq<string>, listed: seq<string>)
    requires Distinct(ps) && multiset(listed) == multiset(ps)
    ensures |listed| == |ps|
    ensures forall p :: p in listed ==> p in ps
    ensures Distinct(listed)
  {
    assert |listed| == |multiset(listed)|;
    assert DistinctKeys(ps, (x: string) => x);
    PermutationKeepsDistinctKeys(ps, listed, (x: string) => x);
  }

  lemma PatternsEndWithDomain(first: string, last: string, domain: string, top: seq<string>)
    requires GenerateEmailPatterns(first, last, domain).Some?
    requires forall p :: p in top ==> p in GenerateEmailPatterns(first, last, domain).value
    ensures forall p :: p in top ==> EndsWith(p, "@" + domain)
  {
    forall p | p in top
      ensures EndsWith(p, "@" + domain)
    {
      PatternsSplitToDomain(first, last, domain, p);
    }
  }

  /** The entries whose address passes the MX check, in order. */
  function Filter(es: seq<(string, real)>, mx: MxOracle): (r: seq<(string, real)>)
    ensures |r| <= |es|
    ensures forall e :: e in r <==> e in es && mx(e.0)
  {
    if |es| == 0 then []
    else if mx(es[0].0) then [es[0]] + Filter(es[1..], mx)
    else Filter(es[1..], mx)
  }

  /** `find_emails_for_contact`: Hunter.io on the first three candidate
      domains, then pattern addresses on the first two; the Hunter results
      come first. */
  function FindEmailsForContact(firstName: string, lastName: string, organisation: string,
                                hunter: HunterOracle, order: SetOrder, mx: MxOracle): (r: seq<(string, real)>)
    requires ListsSets(order)
    ensures Strip(firstName) == "" || Strip(lastName) == "" ==> r == []
    ensures |DomainCandidates(organisation)| == 0 ==> r == []
    ensures Strip(firstName) != "" && Strip(lastName) != "" ==>
              var ds := DomainCandidates(organisation);
              r == HunterResults(ds[..Min(3, |ds|)], hunter)
                   + PatternResults(ds[..Min(2, |ds|)], Strip(firstName), Strip(lastName), order, mx)
  {
    var first := Strip(firstName);
    var last := Strip(lastName);
    if first == "" || last == "" then []
    else
      var domains := DomainCandidates(organisation);
      var hunted := HunterResults(domains[..Min(3, |domains|)], hunter);
      var patterned := PatternResults(domains[..Min(2, |domains|)], first, last, order, mx);
      assert |domains| == 0 ==> hunted == [] && patterned == [];
      hunted + patterned
  }

  /** Only the first three candidate domains are sent to Hunter.io. */
  lemma HunterSeesFirstThree(firstName: string, lastName: string, organisation: string,
                             h1: HunterOracle, h2: HunterOracle, order: SetOrder, mx: MxOracle)
    requires ListsSets(order)
    requires forall k :: 0 <= k < 3 && k < |DomainCandidates(organisation)| ==>
               h1(DomainCandidates(organisation)[k]) == h2(DomainCandidates(organisation)[k])
    ensures FindEmailsForContact(firstName, lastName, organisation, h1, order, mx)
         == FindEmailsForContact(firstName, lastName, organisation, h2, order, mx)
  {
    var ds := DomainCandidates(organisation);
    var top := ds[..Min(3, |ds|)];
    HunterResultsAgree(top, h1, h2);
  }

  lemma {:induction false} HunterResultsAgree(domains: seq<string>, h1: HunterOracle, h2: HunterOracle)
    requires forall k :: 0 <= k < |domains| ==> h1(domains[k]) == h2(domains[k])
    ensures HunterResults(domains, h1) == HunterResults(domains, h2)
  {
    if |domains| > 0 {
      HunterResultsAgree(domains[1..], h1, h2);
    }
  }

  /** Every pattern-derived address carries confidence 0.3, passed the MX
      check and belongs to one of the first two candidate domains; there are
      at most ten of them, whatever order the set lists them in. */
  lemma PatternAddresses(firstName: string, lastName: string, organisation: string,
                         hunter: HunterOracle, order: SetOrder, mx: MxOracle)
    requires ListsSets(order)
    requires Strip(firstName) != "" && Strip(lastName) != ""
    ensures var ds := DomainCandidates(organisation);
      var ps := PatternResults(ds[..Min(2, |ds|)], Strip(firstName), Strip(lastName), order, mx);
      |ps| <= 10
      && forall e :: e in ps ==>
                      e.1 == 0.3 && mx(e.0) && exists k :: 0 <= k < 2 && k < |ds| && EndsWith(e.0, "@" + ds[k])
  {
    var ds := DomainCandidates(organisation);
    var two := ds[..Min(2, |ds|)];
    var ps := PatternResults(two, Strip(firstName), Strip(lastName), order, mx);
    forall e | e in ps
      ensures exists k :: 0 <= k < 2 && k < |ds| && EndsWith(e.0, "@" + ds[k])
    {
      var k :| 0 <= k < |two| && EndsWith(e.0, "@" + two[k]);
      assert two[k] == ds[k];
    }
  }
}
