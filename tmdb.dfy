/** `TMDBServis.prilagodiStranicenje` of src/servis/tmdb.ts: a TMDB search
    reply cut down to the application's page size, with the page count
    recomputed for that size. */
module Tmdb {
  import opened Konfiguracija

  /** The fields of a TMDB search reply that the re-pagination reads and
      writes. */
  datatype TmdbOdgovor<T> = TmdbOdgovor(results: seq<T>, page: int, totalPages: int, totalResults: int)

  /** The bound `slice(0, n)` keeps: the smaller of length and size. */
  function Min(a: int, b: int): (r: int)
    ensures r <= a && r <= b
    ensures r == a || r == b
  {
    if a <= b then a else b
  }

  /** `Math.ceil(x / n)` for a positive integer `n`, through Dafny's
      flooring division. */
  function Strop(x: int, n: int): (r: int)
    requires n > 0
    ensures x == 0 ==> r == 0
    ensures x > 0 ==> r >= 1
    ensures x < 0 ==> r <= 0
  {
    assert ((-x) / n) * n <= -x < ((-x) / n) * n + n;
    -((-x) / n)
  }

  /** The ceiling is the one number of pages whose capacity just covers
      `x` results. */
  lemma StropGranice(x: int, n: int)
    requires n > 0
    ensures (Strop(x, n) - 1) * n < x <= Strop(x, n) * n
  {
    var q := (-x) / n;
    assert q * n <= -x < q * n + n;
  }

  lemma StropJedinstven(x: int, n: int, k: int)
    requires n > 0
    requires (k - 1) * n < x <= k * n
    ensures k == Strop(x, n)
  {
    StropGranice(x, n);
    var s := Strop(x, n);
    ManjiFaktor(k - 1, s, n);
    ManjiFaktor(s - 1, k, n);
  }

  lemma ManjiFaktor(a: int, b: int, n: int)
    requires n > 0 && a * n < b * n
    ensures a < b
  {
    assert (b - a) * n > 0;
  }

  /** `prilagodiStranicenje`; the page size comes from the validated
      configuration (see `StranicenjePozitivno`). */
  function PrilagodiStranicenje<T>(odg: TmdbOdgovor<T>, appStranicenje: int): (r: TmdbOdgovor<T>)
    requires appStranicenje > 0
    ensures |r.results| == Min(|odg.results|, appStranicenje) <= appStranicenje
    ensures r.results == odg.results[..|r.results|]
    ensures r.page == odg.page && r.totalResults == odg.totalResults
    ensures odg.totalResults > 0 ==>
              (r.totalPages - 1) * appStranicenje < odg.totalResults <= r.totalPages * appStranicenje
    ensures odg.totalResults == 0 ==> r.totalPages == 0
  {
    StropGranice(odg.totalResults, appStranicenje);
    TmdbOdgovor(odg.results[..Min(|odg.results|, appStranicenje)], odg.page,
                Strop(odg.totalResults, appStranicenje), odg.totalResults)
  }

  /** The page count is the ceiling of total over page size and nothing
      else, and a reply that already fits one page keeps all its results. */
  lemma PrilagodiStranicenjeStrop<T>(odg: TmdbOdgovor<T>, appStranicenje: int, k: int)
    requires appStranicenje > 0
    requires (k - 1) * appStranicenje < odg.totalResults <= k * appStranicenje
    ensures PrilagodiStranicenje(odg, appStranicenje).totalPages == k
    ensures |odg.results| <= appStranicenje ==> PrilagodiStranicenje(odg, appStranicenje).results == odg.results
  {
    StropJedinstven(odg.totalResults, appStranicenje, k);
  }

  /** A configuration the validator accepts gives a page size of 5 to 20,
      so the division is by a positive number. */
  lemma StranicenjePozitivno(m: map<string, string>)
    requires Ispravna(m)
    ensures var n := ParseIntVrijednosti(Vrijednost(m, "appStranicenje"));
            n.Some? && 5 <= n.value <= 20
  {
  }
}
