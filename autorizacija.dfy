/** The role-gate middleware of src/zajednicko/autorizacija.ts: a decision
    taken from the session principal alone, which either redirects to the
    login page, refuses with the 403 page, or hands the request on. */
module Autorizacija {
  import opened Common

  datatype Odluka =
    | Preusmjeri(putanja: string)
    | Zabranjeno(status: int, stranica: string)
    | Propusti

  const StranicaPrijave: string := "/prijava"
  const StranicaZabrane: string := "public/403.html"

  /** `zahtijevaPrijavu`. */
  function ZahtijevaPrijavu(principal: Option<Principal>): (d: Odluka)
    ensures principal.None? ==> d == Preusmjeri(StranicaPrijave)
    ensures d == Propusti <==> principal.Some?
  {
    if principal.None? then Preusmjeri(StranicaPrijave) else Propusti
  }

  /** The middleware `zahtijevaUlogu(uloge)` builds. */
  function ZahtijevaUlogu(uloge: seq<string>, principal: Option<Principal>): (d: Odluka)
    ensures principal.None? ==> d == Preusmjeri(StranicaPrijave)
    ensures principal.Some? && principal.value.uloga !in uloge ==> d == Zabranjeno(403, StranicaZabrane)
    ensures d == Propusti <==> principal.Some? && principal.value.uloga in uloge
  {
    if principal.None? then Preusmjeri(StranicaPrijave)
    else if principal.value.uloga !in uloge then Zabranjeno(403, StranicaZabrane)
    else Propusti
  }

  /** Allowing more roles never turns a pass into a refusal, and a refusal
      for a listed role is only ever the redirect. */
  lemma Monotonost(uloge: seq<string>, vise: seq<string>, principal: Option<Principal>)
    requires forall u :: u in uloge ==> u in vise
    ensures ZahtijevaUlogu(uloge, principal) == Propusti ==> ZahtijevaUlogu(vise, principal) == Propusti
    ensures ZahtijevaUlogu(vise, principal).Zabranjeno? ==> ZahtijevaUlogu(uloge, principal).Zabranjeno?
  {
  }

  /** Every request a role gate lets through carries a principal, so it
      would also pass the login gate. */
  lemma UlogaTraziPrijavu(uloge: seq<string>, principal: Option<Principal>)
    ensures ZahtijevaUlogu(uloge, principal) == Propusti ==> ZahtijevaPrijavu(principal) == Propusti
    ensures ZahtijevaPrijavu(principal) != Propusti ==> ZahtijevaUlogu(uloge, principal) == ZahtijevaPrijavu(principal)
  {
  }

  /** The role lists the page routes use: `/detalji` and `/gledano` for
      both roles, `/korisnici` for administrators only. */
  const UlogeDetalji: seq<string> := [UlogaRegistrirani, UlogaAdministrator]
  const UlogeGledano: seq<string> := [UlogaRegistrirani, UlogaAdministrator]
  const UlogeKorisnici: seq<string> := [UlogaAdministrator]

  /** A registered user may open `/detalji` and `/gledano` but gets the 403
      page for `/korisnici`; an administrator may open all three; a role
      outside both is refused everywhere. */
  lemma RuteAplikacije(principal: Principal)
    ensures principal.uloga == UlogaRegistrirani ==>
              && ZahtijevaUlogu(UlogeDetalji, Some(principal)) == Propusti
              && ZahtijevaUlogu(UlogeGledano, Some(principal)) == Propusti
              && ZahtijevaUlogu(UlogeKorisnici, Some(principal)) == Zabranjeno(403, StranicaZabrane)
    ensures principal.uloga == UlogaAdministrator ==>
              && ZahtijevaUlogu(UlogeDetalji, Some(principal)) == Propusti
              && ZahtijevaUlogu(UlogeGledano, Some(principal)) == Propusti
              && ZahtijevaUlogu(UlogeKorisnici, Some(principal)) == Propusti
    ensures principal.uloga != UlogaRegistrirani && principal.uloga != UlogaAdministrator ==>
              && ZahtijevaUlogu(UlogeDetalji, Some(principal)) == Zabranjeno(403, StranicaZabrane)
              && ZahtijevaUlogu(UlogeGledano, Some(principal)) == Zabranjeno(403, StranicaZabrane)
              && ZahtijevaUlogu(UlogeKorisnici, Some(principal)) == Zabranjeno(403, StranicaZabrane)
  {
    assert UlogaRegistrirani != UlogaAdministrator;
  }
}
