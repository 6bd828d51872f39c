/** The URL-shortener store of Project2 (Routing.kt): a repository that maps
    short codes to `UrlMapping` objects, a service that counts a redirect by
    incrementing the stored object's click count and saving it back, and the
    create path of the POST handler, which mints a code with no dedupe and no
    collision check.

    `UrlMapping` objects are shared: the repository stores the object it is
    given and the service returns the stored object itself, so a caller holding
    it sees later clicks. `Mapping` is the value an object holds at one moment,
    and `Table` the value of the whole repository; `Saved`, `Redirect` and
    `Create` describe the operations on those values. */
module Project2Routing {
  import opened Codes

  /** The value of a `UrlMapping` object. */
  datatype Mapping = Mapping(shortCode: string, originalUrl: string, clickCount: int)

  type Table = map<string, Mapping>

  /** `UrlMapping`: code and original URL fixed at construction, click count
      mutable. The source's 32-bit `Int` is modelled as an unbounded `int`. */
  class UrlMapping {
    const shortCode: string
    const originalUrl: string
    var clickCount: int

    constructor (shortCode: string, originalUrl: string, clickCount: int)
      ensures this.shortCode == shortCode && this.originalUrl == originalUrl
      ensures this.clickCount == clickCount
    {
      this.shortCode := shortCode;
      this.originalUrl := originalUrl;
      this.clickCount := clickCount;
    }

    function Value(): Mapping
      reads this
    {
      Mapping(shortCode, originalUrl, clickCount)
    }
  }

  /** Every mapping is stored under its own short code, which `save` guarantees. */
  predicate Keyed(t: Table) {
    forall c :: c in t ==> t[c].shortCode == c
  }

  /** `save` on values: insert or overwrite under the mapping's own code. */
  function Saved(t: Table, m: Mapping): (t': Table)
    ensures t'.Keys == t.Keys + {m.shortCode} && t'[m.shortCode] == m
    ensures forall c :: c in t && c != m.shortCode ==> t'[c] == t[c]
    ensures Keyed(t) ==> Keyed(t')
  {
    t[m.shortCode := m]
  }

  /** `getByShortCode` on values. */
  function Lookup(t: Table, code: string): (r: Option<Mapping>)
    ensures r.None? <==> code !in t
    ensures r.Some? && Keyed(t) ==> r.value == t[code] && r.value.shortCode == code
  {
    if code in t then Some(t[code]) else None
  }

  /** `getRedirectInfo` on values: the new table and the mapping returned. */
  function Redirect(t: Table, code: string): (r: (Table, Option<Mapping>))
    ensures r.1.None? <==> code !in t
    ensures r.1.Some? ==> r.1.value.clickCount == t[code].clickCount + 1
    ensures Keyed(t) ==> r.0.Keys == t.Keys && (r.1.Some? ==> r.0[code] == r.1.value)
  {
    if code !in t then (t, None)
    else
      var m := t[code].(clickCount := t[code].clickCount + 1);
      (Saved(t, m), Some(m))
  }

  /** The table after `k` redirects through `code`. */
  function RedirectTimes(t: Table, code: string, k: nat): Table {
    if k == 0 then t else Redirect(RedirectTimes(t, code, k - 1), code).0
  }

  /** `generateShortCode()`: six random characters of `('a'..'z') + ('A'..'Z') +
      ('0'..'9')`, one draw per character. */
  function GenerateShortCode(draws: seq<nat>): (code: string)
    requires |draws| == CodeLength && ValidDraws(draws)
    ensures ValidCode(code)
  {
    var code := seq(CodeLength, i requires 0 <= i < CodeLength => Alphabet[draws[i]]);
    assert forall i :: 0 <= i < |code| ==> IsAlphanumeric(code[i]) by {
      forall i | 0 <= i < |code| ensures IsAlphanumeric(code[i]) {
        AlphabetAt(draws[i]);
      }
    }
    code
  }

  /** The generator agrees with the reference `Pick`. */
  lemma GenerateShortCodeIsPick(draws: seq<nat>)
    requires |draws| == CodeLength && ValidDraws(draws)
    ensures GenerateShortCode(draws) == Pick(draws)
  {
  }

  /** Every valid code is a possible output of the generator. */
  lemma GenerateShortCodeReachesEveryCode(code: string)
    requires ValidCode(code)
    ensures |DrawsFor(code)| == CodeLength && ValidDraws(DrawsFor(code))
    ensures GenerateShortCode(DrawsFor(code)) == code
  {
  }

  /** The create path of the POST handler on values: a fresh code, a zero-click
      mapping saved under it. */
  function Create(t: Table, originalUrl: string, draws: seq<nat>): (r: (Table, string))
    requires |draws| == CodeLength && ValidDraws(draws)
    ensures ValidCode(r.1) && r.0.Keys == t.Keys + {r.1}
    ensures r.0[r.1] == Mapping(r.1, originalUrl, 0)
    ensures forall c :: c in t && c != r.1 ==> r.0[c] == t[c]
  {
    var code := GenerateShortCode(draws);
    (Saved(t, Mapping(code, originalUrl, 0)), code)
  }

  /** `save` keeps every mapping under its own code, puts the new mapping in
      place of any previous one under that code, and leaves other codes alone. */
  lemma SaveEffect(t: Table, m: Mapping)
    requires Keyed(t)
    ensures var t' := Saved(t, m);
      && Keyed(t')
      && t'.Keys == t.Keys + {m.shortCode}
      && Lookup(t', m.shortCode) == Some(m)
      && (forall c :: c != m.shortCode ==> Lookup(t', c) == Lookup(t, c))
  {
  }

  /** Redirect on a missing code: `None` and no change. On a present code: one
      more click, code and original URL kept, the updated mapping returned, and
      every other code unchanged. */
  lemma RedirectEffect(t: Table, code: string)
    requires Keyed(t)
    ensures var (t', r) := Redirect(t, code);
      && Keyed(t')
      && (code !in t ==> r.None? && t' == t)
      && (code in t ==>
        && r == Some(t'[code])
        && t'.Keys == t.Keys
        && t'[code].clickCount == t[code].clickCount + 1
        && t'[code].shortCode == t[code].shortCode
        && t'[code].originalUrl == t[code].originalUrl
        && (forall c :: c in t && c != code ==> t'[c] == t[c]))
  {
  }

  /** `k` redirects through a present code add exactly `k` clicks to it and
      change nothing else. */
  lemma {:induction false} RedirectTimesCounts(t: Table, code: string, k: nat)
    requires Keyed(t) && code in t
    ensures RedirectTimes(t, code, k) == t[code := t[code].(clickCount := t[code].clickCount + k)]
  {
    if k > 0 {
      RedirectTimesCounts(t, code, k - 1);
    }
  }

  /** The create path stores `Mapping(code, originalUrl, 0)` under a valid code;
      there is no collision check, so a mapping already under that code is
      replaced and the key set grows by at most that code. */
  lemma CreateEffect(t: Table, originalUrl: string, draws: seq<nat>)
    requires Keyed(t) && |draws| == CodeLength && ValidDraws(draws)
    ensures var (t', code) := Create(t, originalUrl, draws);
      && ValidCode(code)
      && Keyed(t')
      && t'.Keys == t.Keys + {code}
      && t'[code] == Mapping(code, originalUrl, 0)
      && (forall c :: c in t && c != code ==> t'[c] == t[c])
  {
  }

  /** After creating a mapping, `k` redirects through its code leave it with
      `k` clicks and the original URL it was created with. */
  lemma CreateThenRedirect(t: Table, originalUrl: string, draws: seq<nat>, k: nat)
    requires Keyed(t) && |draws| == CodeLength && ValidDraws(draws)
    ensures var (t1, code) := Create(t, originalUrl, draws);
      var t2 := RedirectTimes(t1, code, k);
      Lookup(t2, code) == Some(Mapping(code, originalUrl, k))
  {
    var (t1, code) := Create(t, originalUrl, draws);
    CreateEffect(t, originalUrl, draws);
    RedirectTimesCounts(t1, code, k);
  }

  /** `UrlRepository`: a mutable map from codes to the mapping objects saved. */
  class UrlRepository {
    var urlStorage: map<string, UrlMapping>

    ghost predicate Valid()
      reads this
    {
      forall c :: c in urlStorage ==> urlStorage[c].shortCode == c
    }

    /** The value of the repository: what each stored object holds now. */
    ghost function Contents(): (t: Table)
      reads this, urlStorage.Values
      requires Valid()
      ensures Keyed(t) && t.Keys == urlStorage.Keys
    {
      map c | c in urlStorage :: urlStorage[c].Value()
    }

    constructor ()
      ensures Valid() && urlStorage == map[]
    {
      urlStorage := map[];
    }

    /** `getByShortCode`: the stored object, or null; no change. */
    method GetByShortCode(code: string) returns (mapping: UrlMapping?)
      requires Valid()
      ensures mapping == null <==> code !in urlStorage
      ensures mapping != null ==> mapping == urlStorage[code] && mapping.shortCode == code
    {
      if code in urlStorage {
        return urlStorage[code];
      }
      return null;
    }

    /** `save`: store the object under its own code. */
    method Save(mapping: UrlMapping)
      requires Valid()
      modifies this
      ensures Valid()
      ensures urlStorage == old(urlStorage)[mapping.shortCode := mapping]
      ensures Contents() == Saved(old(Contents()), mapping.Value())
    {
      urlStorage := urlStorage[mapping.shortCode := mapping];
    }

    /** `clear`: afterwards no code is stored. */
    method Clear()
      modifies this
      ensures Valid() && urlStorage == map[] && Contents() == map[]
    {
      urlStorage := map[];
    }
  }

  /** `UrlService`. */
  class UrlService {
    const repo: UrlRepository

    constructor (repo: UrlRepository)
      ensures this.repo == repo
    {
      this.repo := repo;
    }

    /** `getRedirectInfo`: count one click on the stored object, save it back, and
        return that same object. */
    method GetRedirectInfo(code: string) returns (mapping: UrlMapping?)
      requires repo.Valid()
      modifies repo, repo.urlStorage.Values
      ensures repo.Valid()
      ensures repo.urlStorage == old(repo.urlStorage)
      ensures mapping == null <==> code !in repo.urlStorage
      ensures mapping != null ==> mapping == repo.urlStorage[code]
      ensures (repo.Contents(), if mapping == null then None else Some(mapping.Value()))
              == Redirect(old(repo.Contents()), code)
    {
      ghost var before := repo.Contents();
      mapping := repo.GetByShortCode(code);
      if mapping != null {
        mapping.clickCount := mapping.clickCount + 1;
        assert forall c :: c in repo.urlStorage && c != code ==> repo.urlStorage[c] != mapping;
        assert repo.Contents() == before[code := mapping.Value()];
        repo.Save(mapping);
        assert repo.Contents() == Redirect(before, code).0;
        assert Some(mapping.Value()) == Redirect(before, code).1;
      }
    }
  }

  /** The create sequence of the POST handler: generate a code, build a
      zero-click mapping, save it. Returns the code; building the absolute URL
      from the request's host and port is not modelled. */
  method CreateShortUrl(repo: UrlRepository, originalUrl: string, draws: seq<nat>) returns (code: string)
    requires repo.Valid() && |draws| == CodeLength && ValidDraws(draws)
    modifies repo
    ensures repo.Valid()
    ensures (repo.Contents(), code) == Create(old(repo.Contents()), originalUrl, draws)
    ensures code in repo.urlStorage && fresh(repo.urlStorage[code])
    ensures repo.urlStorage == old(repo.urlStorage)[code := repo.urlStorage[code]]
  {
    code := GenerateShortCode(draws);
    var mapping := new UrlMapping(code, originalUrl, 0);
    repo.Save(mapping);
  }

  /** The service test: a mapping saved under "abc123" and redirected twice; the
      object returned by the first redirect is the stored one, so it shows both
      clicks. */
  method RedirectTwiceSharesObject() returns (result: UrlMapping?)
    ensures result != null
    ensures result.originalUrl == "https://example.com" && result.clickCount == 2
  {
    var repo := new UrlRepository();
    var service := new UrlService(repo);
    var mapping := new UrlMapping("abc123", "https://example.com", 0);
    repo.Save(mapping);
    result := service.GetRedirectInfo("abc123");
    assert result == mapping && result.clickCount == 1;
    var again := service.GetRedirectInfo("abc123");
    assert again == mapping;
  }
}
