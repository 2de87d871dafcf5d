/** Platform classification: which supported site a pasted URL belongs to,
    by case-insensitive substring search over a fixed table of domains. */
module Platforms {
  import opened Text

  datatype PlatformId = YouTube | Facebook | LinkedIn | Unknown

  /** One row of the domain table: a platform and the domains that identify it. */
  datatype Entry = Entry(platform: PlatformId, domains: seq<string>)

  /** The downloader's table of supported platforms, in declaration order
      (which is also the order in which it is searched). */
  const SupportedPlatforms: seq<Entry> := [
    Entry(YouTube, ["youtube.com", "youtu.be"]),
    Entry(Facebook, ["facebook.com", "fb.com", "fb.watch"]),
    Entry(LinkedIn, ["linkedin.com"])
  ]

  /** Some domain of the list occurs in the (already lower-cased) text. */
  predicate AnyDomainIn(domains: seq<string>, lowered: string) {
    exists d :: d in domains && Contains(lowered, d)
  }

  /** The platform of the first row, in table order, that has a domain in the text. */
  function FirstMatch(table: seq<Entry>, lowered: string): PlatformId {
    if table == [] then Unknown
    else if AnyDomainIn(table[0].domains, lowered) then table[0].platform
    else FirstMatch(table[1..], lowered)
  }

  /** The platform a URL belongs to; the empty URL is `Unknown`. */
  function Classify(url: string): (p: PlatformId)
    ensures url == "" ==> p == Unknown
    ensures p != Unknown ==>
      exists j :: 0 <= j < |SupportedPlatforms| && SupportedPlatforms[j].platform == p &&
                  AnyDomainIn(SupportedPlatforms[j].domains, Lower(url))
  {
    if url == "" then Unknown
    else
      FirstMatchFromTable(SupportedPlatforms, Lower(url));
      FirstMatch(SupportedPlatforms, Lower(url))
  }

  /** The search only ever answers with a platform whose row matched, or `Unknown`. */
  lemma {:induction false} FirstMatchFromTable(table: seq<Entry>, lowered: string)
    ensures var p := FirstMatch(table, lowered);
      p == Unknown || exists j :: 0 <= j < |table| && table[j].platform == p && AnyDomainIn(table[j].domains, lowered)
  {
    if table != [] && !AnyDomainIn(table[0].domains, lowered) {
      FirstMatchFromTable(table[1..], lowered);
      var p := FirstMatch(table, lowered);
      if p != Unknown {
        var j :| 0 <= j < |table[1..]| && table[1..][j].platform == p && AnyDomainIn(table[1..][j].domains, lowered);
        assert table[j + 1] == table[1..][j];
      }
    }
  }

  /** Row `k` is the first row of the table with a domain in the text. */
  ghost predicate FirstMatchAt(table: seq<Entry>, lowered: string, k: int) {
    0 <= k < |table| && AnyDomainIn(table[k].domains, lowered) &&
    forall j :: 0 <= j < k ==> !AnyDomainIn(table[j].domains, lowered)
  }

  /** `FirstMatch` returns the platform of the first matching row, and `Unknown`
      exactly when no row matches (for tables that do not list `Unknown` themselves). */
  lemma {:induction false} FirstMatchMeaning(table: seq<Entry>, lowered: string)
    requires forall j :: 0 <= j < |table| ==> table[j].platform != Unknown
    ensures forall k :: FirstMatchAt(table, lowered, k) ==> FirstMatch(table, lowered) == table[k].platform
    ensures FirstMatch(table, lowered) == Unknown <==>
            forall j :: 0 <= j < |table| ==> !AnyDomainIn(table[j].domains, lowered)
  {
    if table != [] {
      FirstMatchMeaning(table[1..], lowered);
      forall k | FirstMatchAt(table, lowered, k)
        ensures FirstMatch(table, lowered) == table[k].platform
      {
        if k > 0 {
          assert !AnyDomainIn(table[0].domains, lowered);
          assert FirstMatchAt(table[1..], lowered, k - 1);
        }
      }
      if !AnyDomainIn(table[0].domains, lowered) {
        assert forall j :: 1 <= j < |table| ==> table[j] == table[1..][j - 1];
      }
    }
  }

  /** What `Classify` decides, stated without recursion: `Unknown` for the empty URL
      or when no listed domain occurs in the lower-cased URL; otherwise the platform
      of the first row, in declaration order, with a domain in it. */
  lemma ClassifyMeaning(url: string)
    ensures Classify(url) == Unknown <==>
            url == "" || forall j :: 0 <= j < |SupportedPlatforms| ==> !AnyDomainIn(SupportedPlatforms[j].domains, Lower(url))
    ensures url != "" ==>
            forall k :: FirstMatchAt(SupportedPlatforms, Lower(url), k) ==> Classify(url) == SupportedPlatforms[k].platform
  {
    FirstMatchMeaning(SupportedPlatforms, Lower(url));
  }

  /** The search over a three-row table, unrolled. */
  lemma FirstMatchOfThree(t: seq<Entry>, l: string)
    requires |t| == 3
    ensures FirstMatch(t, l) ==
      if AnyDomainIn(t[0].domains, l) then t[0].platform
      else if AnyDomainIn(t[1].domains, l) then t[1].platform
      else if AnyDomainIn(t[2].domains, l) then t[2].platform
      else Unknown
  {
    assert t[1..][0] == t[1] && t[1..][1..] == t[2..];
    assert t[2..][0] == t[2] && t[2..][1..] == [];
    assert FirstMatch(t[2..], l) == if AnyDomainIn(t[2].domains, l) then t[2].platform else Unknown;
    assert FirstMatch(t[1..], l) == if AnyDomainIn(t[1].domains, l) then t[1].platform else FirstMatch(t[2..], l);
  }

  lemma AnyOfTwo(a: string, b: string, l: string)
    ensures AnyDomainIn([a, b], l) <==> Contains(l, a) || Contains(l, b)
  {
    assert a in [a, b] && b in [a, b];
  }

  lemma AnyOfThree(a: string, b: string, c: string, l: string)
    ensures AnyDomainIn([a, b, c], l) <==> Contains(l, a) || Contains(l, b) || Contains(l, c)
  {
    assert a in [a, b, c] && b in [a, b, c] && c in [a, b, c];
  }

  lemma AnyOfOne(a: string, l: string)
    ensures AnyDomainIn([a], l) <==> Contains(l, a)
  {
    assert a in [a];
  }

  /** The table unrolled: each row's test spelled out as its domains. */
  lemma ClassifyUnrolled(url: string)
    ensures var l := Lower(url);
      Classify(url) ==
        if url == "" then Unknown
        else if Contains(l, "youtube.com") || Contains(l, "youtu.be") then YouTube
        else if Contains(l, "facebook.com") || Contains(l, "fb.com") || Contains(l, "fb.watch") then Facebook
        else if Contains(l, "linkedin.com") then LinkedIn
        else Unknown
  {
    var l := Lower(url);
    var t := SupportedPlatforms;
    FirstMatchOfThree(t, l);
    AnyOfTwo("youtube.com", "youtu.be", l);
    AnyOfThree("facebook.com", "fb.com", "fb.watch", l);
    AnyOfOne("linkedin.com", l);
  }

  /** A URL naming a YouTube domain is YouTube, whatever else it names. */
  lemma ClassifyYouTube(url: string)
    ensures Classify(url) == YouTube <==>
            Contains(Lower(url), "youtube.com") || Contains(Lower(url), "youtu.be")
  {
    ClassifyUnrolled(url);
  }

  /** A URL is Facebook exactly when it names a Facebook domain and no YouTube domain. */
  lemma ClassifyFacebook(url: string)
    ensures Classify(url) == Facebook <==>
            !Contains(Lower(url), "youtube.com") && !Contains(Lower(url), "youtu.be") &&
            (Contains(Lower(url), "facebook.com") || Contains(Lower(url), "fb.com") || Contains(Lower(url), "fb.watch"))
  {
    ClassifyUnrolled(url);
  }

  /** A URL is LinkedIn exactly when it names linkedin.com and no YouTube or Facebook domain. */
  lemma ClassifyLinkedIn(url: string)
    ensures Classify(url) == LinkedIn <==>
            !Contains(Lower(url), "youtube.com") && !Contains(Lower(url), "youtu.be") &&
            !Contains(Lower(url), "facebook.com") && !Contains(Lower(url), "fb.com") &&
            !Contains(Lower(url), "fb.watch") && Contains(Lower(url), "linkedin.com")
  {
    ClassifyUnrolled(url);
  }

  /** Classification ignores letter case: URLs equal up to case get the same platform. */
  lemma ClassifyIgnoresCase(url: string, other: string)
    requires Lower(url) == Lower(other)
    ensures Classify(url) == Classify(other)
    ensures Classify(Lower(url)) == Classify(url)
  {
    LowerIdempotent(url);
  }

  /** Searches the table the way the downloader does: row by row, domain by domain,
      returning at the first domain found in the lower-cased URL. */
  method DetectPlatform(url: string) returns (p: PlatformId)
    ensures p == Classify(url)
  {
    if url == "" {
      return Unknown;
    }
    var urlLower := Lower(url);
    var t := 0;
    while t < |SupportedPlatforms|
      invariant 0 <= t <= |SupportedPlatforms|
      invariant FirstMatch(SupportedPlatforms, urlLower) == FirstMatch(SupportedPlatforms[t..], urlLower)
    {
      var entry := SupportedPlatforms[t];
      var d := 0;
      while d < |entry.domains|
        invariant 0 <= d <= |entry.domains|
        invariant forall j :: 0 <= j < d ==> !Contains(urlLower, entry.domains[j])
      {
        if Contains(urlLower, entry.domains[d]) {
          assert SupportedPlatforms[t..][0] == entry;
          assert AnyDomainIn(entry.domains, urlLower);
          assert FirstMatch(SupportedPlatforms[t..], urlLower) == entry.platform;
          return entry.platform;
        }
        d := d + 1;
      }
      assert SupportedPlatforms[t..][0] == entry && !AnyDomainIn(entry.domains, urlLower);
      assert SupportedPlatforms[t..][1..] == SupportedPlatforms[t + 1..];
      t := t + 1;
    }
    assert SupportedPlatforms[t..] == [];
    return Unknown;
  }
}
