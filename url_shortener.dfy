/** The URL-shortener store of Project-ktor (`object UrlShortener` in Routing.kt):
    a process-wide table from six-character short codes to entries holding the
    long URL and a click counter. Creating a short URL deduplicates by long URL,
    otherwise it draws codes until one is not yet a key; resolving a code counts
    a click; the stats query only reads.

    The abstract behaviour of each operation is a function on the table
    (`Shorten`, `Resolve`, `Stats`); the class `UrlShortener` holds the table in a
    field and its methods are proved to follow those functions. */
module ProjectKtorRouting {
  import opened Codes

  /** `UrlEntry`: the long URL and the number of redirects through its code.
      Click counts are unbounded here; the source's 32-bit `Int` is not modelled. */
  datatype UrlEntry = UrlEntry(longUrl: string, clicks: nat)

  /** The answer of the stats query. */
  datatype UrlStats = UrlStats(longUrl: string, clicks: nat)

  type Store = map<string, UrlEntry>

  /** Prefix of every short URL handed out. */
  const BaseUrl: string := "http://localhost:8080/"

  /** The alphabet `generateShortCode` draws from, as the source spells it. */
  const Chars: string := "abcdefghijklmnopqrstuvwxyzABCDEFGHIJKLMNOPQRSTUVWXYZ0123456789"

  lemma CharsIsAlphabet()
    ensures Chars == Alphabet
  {
    CharsByCase();
    AlphabetByCase();
  }

  lemma CharsByCase()
    ensures Chars == "abcdefghijklmnopqrstuvwxyz" + "ABCDEFGHIJKLMNOPQRSTUVWXYZ" + "0123456789"
  {
  }

  lemma AlphabetByCase()
    ensures Alphabet == "abcdefghijklmnopqrstuvwxyz" + "ABCDEFGHIJKLMNOPQRSTUVWXYZ" + "0123456789"
  {
  }

  /** `generateShortCode(length)`: one random character of `Chars` per position.
      The `length` argument is the number of draws supplied. */
  function GenerateShortCode(draws: seq<nat>): (code: string)
    requires ValidDraws(draws)
    ensures |code| == |draws|
    ensures forall i :: 0 <= i < |code| ==> IsAlphanumeric(code[i])
  {
    CharsIsAlphabet();
    var code := seq(|draws|, i requires 0 <= i < |draws| => Chars[draws[i]]);
    assert forall i :: 0 <= i < |code| ==> IsAlphanumeric(code[i]) by {
      forall i | 0 <= i < |code| ensures IsAlphanumeric(code[i]) {
        AlphabetAt(draws[i]);
      }
    }
    code
  }

  /** The generator agrees with the reference `Pick`, so it reaches every
      alphanumeric code of the requested length and no other string. */
  lemma GenerateShortCodeIsPick(draws: seq<nat>)
    requires ValidDraws(draws)
    ensures GenerateShortCode(draws) == Pick(draws)
  {
    var g := GenerateShortCode(draws);
    var p := Pick(draws);
    CharsIsAlphabet();
    forall i | 0 <= i < |draws| ensures g[i] == p[i] {
      AlphabetAt(draws[i]);
      assert IndexOf(p[i]) == draws[i];
    }
  }

  lemma GenerateShortCodeReachesEveryCode(code: string)
    requires ValidCode(code)
    ensures ValidDraws(DrawsFor(code)) && GenerateShortCode(DrawsFor(code)) == code
  {
    GenerateShortCodeIsPick(DrawsFor(code));
    PickDrawsFor(code);
  }

  /** What the random source may supply to one `shortenUrl` call: a finite list of
      candidate draws of the default length 6, tried in order by the retry loop. */
  predicate ValidCandidates(candidates: seq<seq<nat>>) {
    forall i :: 0 <= i < |candidates| ==> |candidates[i]| == CodeLength && ValidDraws(candidates[i])
  }

  /** No two codes stand for the same long URL: what the dedupe scan keeps. */
  predicate UniqueUrls(s: Store) {
    forall c1, c2 :: c1 in s && c2 in s && s[c1].longUrl == s[c2].longUrl ==> c1 == c2
  }

  /** The store invariant: unique long URLs, and every key a generated code. */
  predicate WellFormed(s: Store) {
    UniqueUrls(s) && forall c :: c in s ==> ValidCode(c)
  }

  predicate HasUrl(s: Store, longUrl: string) {
    exists c :: c in s && s[c].longUrl == longUrl
  }

  /** A key whose entry holds `longUrl`; unique when the store is well formed. */
  ghost function CodeFor(s: Store, longUrl: string): (c: string)
    requires HasUrl(s, longUrl)
    ensures c in s && s[c].longUrl == longUrl
  {
    var c :| c in s && s[c].longUrl == longUrl; c
  }

  /** The position of the first candidate whose code is not yet a key, if any:
      where the `do ... while (containsKey)` loop stops. */
  function FirstFree(s: Store, candidates: seq<seq<nat>>): (r: Option<nat>)
    requires ValidCandidates(candidates)
    ensures r.Some? ==> r.value < |candidates| && GenerateShortCode(candidates[r.value]) !in s
    ensures r.Some? ==> forall i :: 0 <= i < r.value ==> GenerateShortCode(candidates[i]) in s
    ensures r.None? ==> forall i :: 0 <= i < |candidates| ==> GenerateShortCode(candidates[i]) in s
  {
    if candidates == [] then None
    else if GenerateShortCode(candidates[0]) !in s then Some(0)
    else
      match FirstFree(s, candidates[1..])
      case None => None
      case Some(j) => Some(j + 1)
  }

  /** The code inside a short URL (the test's `removePrefix(baseUrl)`). */
  function CodeOf(shortUrl: string): (code: string)
    ensures StartsWith(shortUrl, BaseUrl) ==> BaseUrl + code == shortUrl
    ensures !StartsWith(shortUrl, BaseUrl) ==> code == shortUrl
  {
    if StartsWith(shortUrl, BaseUrl) then shortUrl[|BaseUrl|..] else shortUrl
  }

  /** `shortenUrl`: the new table and the returned short URL; `None` stands for a
      candidate list in which every code collided. */
  ghost function Shorten(s: Store, longUrl: string, candidates: seq<seq<nat>>): (r: (Store, Option<string>))
    requires ValidCandidates(candidates)
    ensures s.Keys <= r.0.Keys && forall c :: c in s ==> r.0[c] == s[c]
    ensures r.1.Some? ==> StartsWith(r.1.value, BaseUrl)
    ensures r.1.None? <==> !HasUrl(s, longUrl) && FirstFree(s, candidates).None?
  {
    if HasUrl(s, longUrl) then (s, Some(BaseUrl + CodeFor(s, longUrl)))
    else
      match FirstFree(s, candidates)
      case None => (s, None)
      case Some(j) =>
        var code := GenerateShortCode(candidates[j]);
        (s[code := UrlEntry(longUrl, 0)], Some(BaseUrl + code))
  }

  /** `getLongUrlAndIncrementClicks`: the new table and the long URL, if any. */
  function Resolve(s: Store, code: string): (r: (Store, Option<string>))
    ensures r.0.Keys == s.Keys
    ensures r.1.None? <==> code !in s
    ensures r.1.Some? ==> r.1.value == s[code].longUrl && r.0[code].clicks == s[code].clicks + 1
  {
    if code !in s then (s, None)
    else (s[code := s[code].(clicks := s[code].clicks + 1)], Some(s[code].longUrl))
  }

  /** `getStats`. */
  function Stats(s: Store, code: string): (r: Option<UrlStats>)
    ensures r.None? <==> code !in s
    ensures r.Some? ==> r.value.longUrl == s[code].longUrl && r.value.clicks == s[code].clicks
  {
    if code in s then Some(UrlStats(s[code].longUrl, s[code].clicks)) else None
  }

  /** The table after `k` redirects through `code`. */
  function ResolveTimes(s: Store, code: string, k: nat): Store {
    if k == 0 then s else Resolve(ResolveTimes(s, code, k - 1), code).0
  }

  /** The POST route accepts a long URL only when it begins with "http". */
  function IsAcceptedUrl(longUrl: string): (ok: bool)
    ensures ok <==> |longUrl| >= 4 && longUrl[..4] == "http"
  {
    StartsWith(longUrl, "http")
  }

  lemma AcceptedUrlExamples()
    ensures IsAcceptedUrl("https://www.example.com/test-page")
    ensures !IsAcceptedUrl("ftp://invalid-url.com")
  {
    assert "https://www.example.com/test-page"[..4] == "http";
    assert "ftp://invalid-url.com"[0] == 'f';
  }

  lemma CodeOfShortUrl(code: string)
    ensures CodeOf(BaseUrl + code) == code
  {
  }

  /** Dedupe: a long URL already in the table gets back the code it has, and the
      table is left as it was. */
  lemma ShortenDedupe(s: Store, longUrl: string, candidates: seq<seq<nat>>, code: string)
    requires UniqueUrls(s) && ValidCandidates(candidates)
    requires code in s && s[code].longUrl == longUrl
    ensures Shorten(s, longUrl, candidates) == (s, Some(BaseUrl + code))
  {
  }

  /** Freshness and insert effect: when no entry holds the long URL, the returned
      code was not a key before, the new entry is (longUrl, 0 clicks), the key set
      grows by exactly that code and every other entry is kept; when every
      candidate collides the table is unchanged. */
  lemma ShortenFresh(s: Store, longUrl: string, candidates: seq<seq<nat>>)
    requires ValidCandidates(candidates)
    requires !HasUrl(s, longUrl)
    ensures var (s', r) := Shorten(s, longUrl, candidates);
      && (r.Some? ==>
        var code := CodeOf(r.value);
        && r.value == BaseUrl + code
        && ValidCode(code)
        && code !in s
        && s'.Keys == s.Keys + {code}
        && s'[code] == UrlEntry(longUrl, 0)
        && (forall c :: c in s ==> s'[c] == s[c]))
      && (r.None? ==> s' == s && forall i :: 0 <= i < |candidates| ==> GenerateShortCode(candidates[i]) in s)
  {
  }

  /** The store invariant survives `shortenUrl`, and a returned short URL is the
      base URL followed by a valid code that now resolves to the long URL. */
  lemma ShortenWellFormed(s: Store, longUrl: string, candidates: seq<seq<nat>>)
    requires WellFormed(s) && ValidCandidates(candidates)
    ensures var (s', r) := Shorten(s, longUrl, candidates);
      && WellFormed(s')
      && (r.Some? ==>
        var code := CodeOf(r.value);
        && r.value == BaseUrl + code
        && ValidCode(code)
        && code in s' && s'[code].longUrl == longUrl)
  {
  }

  /** Resubmitting a long URL right after shortening it returns the same short
      URL and leaves the table as it is, whatever codes the generator offers. */
  lemma ShortenIdempotent(s: Store, longUrl: string, candidates: seq<seq<nat>>, retry: seq<seq<nat>>)
    requires WellFormed(s) && ValidCandidates(candidates) && ValidCandidates(retry)
    requires Shorten(s, longUrl, candidates).1.Some?
    ensures var (s', r) := Shorten(s, longUrl, candidates);
      Shorten(s', longUrl, retry) == (s', r)
  {
    var (s', r) := Shorten(s, longUrl, candidates);
    ShortenWellFormed(s, longUrl, candidates);
    var code := CodeOf(r.value);
    ShortenDedupe(s', longUrl, retry, code);
  }

  /** Two different long URLs shortened one after the other get different codes. */
  lemma ShortenDistinctUrls(s: Store, u1: string, u2: string, c1: seq<seq<nat>>, c2: seq<seq<nat>>)
    requires WellFormed(s) && ValidCandidates(c1) && ValidCandidates(c2)
    requires u1 != u2
    requires Shorten(s, u1, c1).1.Some?
    requires Shorten(Shorten(s, u1, c1).0, u2, c2).1.Some?
    ensures var (s1, r1) := Shorten(s, u1, c1);
      var (s2, r2) := Shorten(s1, u2, c2);
      CodeOf(r1.value) != CodeOf(r2.value)
  {
  }

  /** Redirect on an absent code: nothing found, nothing changed. On a present
      code: its long URL, exactly one more click on that entry, and every other
      entry and the key set unchanged. */
  lemma ResolveEffect(s: Store, code: string)
    ensures var (s', r) := Resolve(s, code);
      && (code !in s ==> r.None? && s' == s)
      && (code in s ==>
        && r == Some(s[code].longUrl)
        && s'.Keys == s.Keys
        && s'[code].longUrl == s[code].longUrl
        && s'[code].clicks == s[code].clicks + 1
        && (forall c :: c in s && c != code ==> s'[c] == s[c]))
  {
  }

  lemma ResolveWellFormed(s: Store, code: string)
    requires WellFormed(s)
    ensures WellFormed(Resolve(s, code).0)
  {
  }

  /** Read after write: the stats of a code just redirected through report its
      long URL and one more click than before; an absent code stays absent. */
  lemma StatsAfterResolve(s: Store, code: string)
    ensures code !in s ==> Stats(Resolve(s, code).0, code) == None
    ensures code in s ==> Stats(Resolve(s, code).0, code) == Some(UrlStats(s[code].longUrl, s[code].clicks + 1))
  {
  }

  /** Click accounting: `k` redirects through a present code add exactly `k` to
      its count and change nothing else. */
  lemma {:induction false} ResolveTimesCounts(s: Store, code: string, k: nat)
    requires code in s
    ensures ResolveTimes(s, code, k) == s[code := UrlEntry(s[code].longUrl, s[code].clicks + k)]
  {
    if k > 0 {
      ResolveTimesCounts(s, code, k - 1);
    }
  }

  /** Round trip: shorten a long URL, follow its code once, and the redirect gives
      back the long URL; for a URL not yet stored the stats then read (longUrl, 1). */
  lemma ShortenResolveStats(s: Store, longUrl: string, candidates: seq<seq<nat>>)
    requires WellFormed(s) && ValidCandidates(candidates)
    requires Shorten(s, longUrl, candidates).1.Some?
    ensures var (s1, r) := Shorten(s, longUrl, candidates);
      var code := CodeOf(r.value);
      var (s2, target) := Resolve(s1, code);
      && target == Some(longUrl)
      && (!HasUrl(s, longUrl) ==> Stats(s2, code) == Some(UrlStats(longUrl, 1)))
  {
  }

  /** `object UrlShortener`: the table lives in `urlStore`; the singleton starts
      empty. */
  class UrlShortener {
    var urlStore: Store

    ghost predicate Valid()
      reads this
    {
      WellFormed(urlStore)
    }

    constructor ()
      ensures Valid() && urlStore == map[]
    {
      urlStore := map[];
    }

    /** `urlStore.entries.firstOrNull { it.value.longUrl == longUrl }`: a scan of
        the entries, in an order the model leaves open. */
    method FirstEntryWithUrl(longUrl: string) returns (code: Option<string>)
      ensures code.Some? ==> code.value in urlStore && urlStore[code.value].longUrl == longUrl
      ensures code.None? <==> !HasUrl(urlStore, longUrl)
    {
      var unseen := urlStore.Keys;
      while unseen != {}
        invariant unseen <= urlStore.Keys
        invariant forall c :: c in urlStore && c !in unseen ==> urlStore[c].longUrl != longUrl
        decreases unseen
      {
        var c :| c in unseen;
        if urlStore[c].longUrl == longUrl {
          return Some(c);
        }
        unseen := unseen - {c};
      }
      return None;
    }

    /** `shortenUrl`: dedupe by long URL, otherwise retry candidates until a code
        is not a key and insert a zero-click entry under it. */
    method ShortenUrl(longUrl: string, candidates: seq<seq<nat>>) returns (shortUrl: Option<string>)
      requires Valid() && ValidCandidates(candidates)
      modifies this
      ensures Valid()
      ensures (urlStore, shortUrl) == Shorten(old(urlStore), longUrl, candidates)
      ensures shortUrl.Some? && !HasUrl(old(urlStore), longUrl) ==>
        CodeOf(shortUrl.value) !in old(urlStore) &&
        urlStore == old(urlStore)[CodeOf(shortUrl.value) := UrlEntry(longUrl, 0)]
    {
      ShortenWellFormed(urlStore, longUrl, candidates);
      var existing := FirstEntryWithUrl(longUrl);
      if existing.Some? {
        ShortenDedupe(urlStore, longUrl, candidates, existing.value);
        return Some(BaseUrl + existing.value);
      }
      ShortenFresh(urlStore, longUrl, candidates);
      var i := 0;
      while i < |candidates|
        invariant 0 <= i <= |candidates|
        invariant forall j :: 0 <= j < i ==> GenerateShortCode(candidates[j]) in urlStore
        invariant urlStore == old(urlStore)
      {
        var code := GenerateShortCode(candidates[i]);
        if code !in urlStore {
          CodeOfShortUrl(code);
          urlStore := urlStore[code := UrlEntry(longUrl, 0)];
          return Some(BaseUrl + code);
        }
        i := i + 1;
      }
      return None;
    }

    /** `getLongUrlAndIncrementClicks`. */
    method GetLongUrlAndIncrementClicks(code: string) returns (longUrl: Option<string>)
      requires Valid()
      modifies this
      ensures Valid()
      ensures (urlStore, longUrl) == Resolve(old(urlStore), code)
    {
      ResolveWellFormed(urlStore, code);
      if code !in urlStore {
        return None;
      }
      var entry := urlStore[code];
      urlStore := urlStore[code := entry.(clicks := entry.clicks + 1)];
      return Some(entry.longUrl);
    }

    /** `getStats`: reads the entry, changes nothing. */
    method GetStats(code: string) returns (stats: Option<UrlStats>)
      ensures stats.None? <==> code !in urlStore
      ensures stats.Some? ==> stats.value.longUrl == urlStore[code].longUrl && stats.value.clicks == urlStore[code].clicks
    {
      if code !in urlStore {
        return None;
      }
      var entry := urlStore[code];
      return Some(UrlStats(entry.longUrl, entry.clicks));
    }
  }
}
