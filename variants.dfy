/** The two stores side by side: they draw codes the same way, but Project-ktor
    deduplicates by long URL and never overwrites a key, while Project2 mints a
    new code for every submission and saves it without checking for a
    collision. */
module Variants {
  import opened Codes
  import K = ProjectKtorRouting
  import P = Project2Routing

  /** The same six draws give the same code in both projects. */
  lemma GeneratorsAgree(draws: seq<nat>)
    requires |draws| == CodeLength && ValidDraws(draws)
    ensures K.GenerateShortCode(draws) == P.GenerateShortCode(draws)
  {
    K.GenerateShortCodeIsPick(draws);
    P.GenerateShortCodeIsPick(draws);
  }

  /** Submitting one long URL twice. Project-ktor hands back the same short URL
      and keeps a single entry for the URL. Project2 stores a second mapping for
      it whenever the second code differs from the first. */
  lemma ResubmissionKtorDedupes(s: K.Store, longUrl: string, first: seq<seq<nat>>, second: seq<seq<nat>>)
    requires K.WellFormed(s) && K.ValidCandidates(first) && K.ValidCandidates(second)
    requires K.Shorten(s, longUrl, first).1.Some?
    ensures var (s1, r1) := K.Shorten(s, longUrl, first);
      var (s2, r2) := K.Shorten(s1, longUrl, second);
      && r2 == r1 && s2 == s1
      && (forall c1, c2 :: c1 in s2 && c2 in s2 && s2[c1].longUrl == longUrl && s2[c2].longUrl == longUrl ==> c1 == c2)
  {
    K.ShortenIdempotent(s, longUrl, first, second);
    K.ShortenWellFormed(s, longUrl, first);
  }

  lemma ResubmissionProject2Duplicates(t: P.Table, originalUrl: string, first: seq<nat>, second: seq<nat>)
    requires P.Keyed(t)
    requires |first| == CodeLength && ValidDraws(first) && |second| == CodeLength && ValidDraws(second)
    requires P.GenerateShortCode(first) != P.GenerateShortCode(second)
    ensures var (t1, c1) := P.Create(t, originalUrl, first);
      var (t2, c2) := P.Create(t1, originalUrl, second);
      && c1 != c2
      && c1 in t2 && t2[c1].originalUrl == originalUrl
      && c2 in t2 && t2[c2].originalUrl == originalUrl
  {
  }

  /** A code drawn again: in Project2 the second submission replaces the first
      mapping under that code, so the first URL is no longer reachable through
      it and the key set does not grow. */
  lemma CollisionProject2Overwrites(t: P.Table, url1: string, url2: string, draws: seq<nat>)
    requires P.Keyed(t) && |draws| == CodeLength && ValidDraws(draws)
    ensures var (t1, c1) := P.Create(t, url1, draws);
      var (t2, c2) := P.Create(t1, url2, draws);
      && c2 == c1
      && t2.Keys == t1.Keys
      && P.Lookup(t2, c1) == Some(P.Mapping(c1, url2, 0))
  {
  }

  /** A code drawn again in Project-ktor is skipped: shortening a second URL
      never returns the code the first one got. */
  lemma CollisionKtorSkips(s: K.Store, url1: string, url2: string, candidates: seq<seq<nat>>)
    requires K.WellFormed(s) && K.ValidCandidates(candidates) && url1 != url2
    requires K.Shorten(s, url1, candidates).1.Some?
    requires K.Shorten(K.Shorten(s, url1, candidates).0, url2, candidates).1.Some?
    ensures var (s1, r1) := K.Shorten(s, url1, candidates);
      var (s2, r2) := K.Shorten(s1, url2, candidates);
      && K.CodeOf(r2.value) != K.CodeOf(r1.value)
      && s2[K.CodeOf(r1.value)] == s1[K.CodeOf(r1.value)]
  {
  }
}
