/** The REST handlers of `pripremiPutanjeAutentifikacija`
    (src/servis/autentifikacija.ts) over the store model.

    A handler's reply is a status code and a JSON body (`Odgovor`).  The
    guard chains and the read-only routes are pure functions; the handlers
    that write the store or the session are methods, each proved to do
    exactly what a pure function of the old store and session (`...Spec`)
    says.  The callbacks of the source run one after another here: the
    failure record is written before it is counted, and the lock and the
    clean-up are done before the reply. */
module Autentifikacija {
  import opened Common
  import opened Baza
  import opened Konfiguracija

  /** The JSON bodies the handlers send. */
  datatype Tijelo =
    | Greska(greska: string)
    | Poruka(poruka: string)
    | Registrirano(poruka: string, id: nat)
    | Prijavljen(poruka: string, korisnik: Principal)
    | JedanKorisnik(podaci: JavniKorisnik)
    | Popis(korisnici: seq<JavniKorisnik>)
    | StanjeSesije(prijavljen: bool, principal: Option<Principal>)

  datatype Odgovor = Odgovor(status: int, tijelo: Tijelo)

  const SvaPolja: string := "Sva polja su obavezna"
  const UspjesnaRegistracija: string := "Uspjesna registracija"
  const NistePrijavljeni: string := "Niste prijavljeni"
  const NemateDopustenje: string := "Nemate dopustenje"
  const KorisnikAzuriran: string := "Korisnik azuriran"
  const LozinkaObavezna: string := "Lozinka je obavezna"
  const RacunZakljucan: string := "Racun je zakljucan"
  const PrevisePokusaja: string := "Racun je zakljucan zbog previse pokusaja"
  const UspjesnaPrijava: string := "Uspjesna prijava"
  const UspjesnaOdjava: string := "Uspjesna odjava"

  /** The server-side session: `sesija.korisnik`, absent until a login. */
  class Sesija {
    var korisnik: Option<Principal>

    constructor ()
      ensures korisnik == None
    {
      korisnik := None;
    }
  }

  /** The store and, for the login route, the session after a handler. */
  datatype Ishod = Ishod(odgovor: Odgovor, stanje: Tablice)
  datatype IshodPrijave = IshodPrijave(odgovor: Odgovor, stanje: Tablice, sesija: Option<Principal>)

  // ---------------------------------------------------------------------
  // Read-only routes

  /** GET /rest/korisnici: every user, without hash and salt. */
  function PopisKorisnika(redovi: seq<Korisnik>): (o: Odgovor)
    ensures o.status == 200 && o.tijelo.Popis?
    ensures |o.tijelo.korisnici| == |redovi|
    ensures forall i :: 0 <= i < |redovi| ==> o.tijelo.korisnici[i] == Javno(redovi[i])
  {
    Odgovor(200, Popis(seq(|redovi|, i requires 0 <= i < |redovi| => Javno(redovi[i]))))
  }

  /** GET /rest/korisnici/:korime: 404 exactly when no row has that
      username, otherwise 200 with the public columns of its row. */
  function KorisnikPoImenu(redovi: seq<Korisnik>, korime: string): (o: Odgovor)
    ensures o.status == 404 <==> forall j :: 0 <= j < |redovi| ==> redovi[j].korisnickoIme != korime
    ensures o.status == 404 ==> o.tijelo == Greska(PorukaNePostoji)
    ensures o.status != 404 ==> o.status == 200 && o.tijelo.JedanKorisnik? && o.tijelo.podaci.korisnickoIme == korime
    ensures o.status != 404 ==> exists j :: 0 <= j < |redovi| && o.tijelo.podaci == Javno(redovi[j])
  {
    match Redak(redovi, korime)
    case None => Odgovor(404, Greska(PorukaNePostoji))
    case Some(k) => Odgovor(200, JedanKorisnik(Javno(k)))
  }

  /** GET /api/provjera-sesije: `prijavljen` is true exactly when the
      session holds a principal, which is then reported. */
  function ProvjeraSesije(principal: Option<Principal>): (o: Odgovor)
    ensures o.status == 200 && o.tijelo.StanjeSesije?
    ensures o.tijelo.prijavljen <==> principal.Some?
    ensures o.tijelo.principal == principal
  {
    if principal.Some? then Odgovor(200, StanjeSesije(true, principal))
    else Odgovor(200, StanjeSesije(false, None))
  }

  // ---------------------------------------------------------------------
  // Guards

  /** The registration guard: all six body fields must be truthy. */
  function PoljaRegistracije(korime: Option<string>, email: Option<string>, lozinka: Option<string>,
                             ime: Option<string>, prezime: Option<string>, datumRodenja: Option<string>): (r: Option<Odgovor>)
    ensures r.None? <==> Istinit(korime) && Istinit(email) && Istinit(lozinka) && Istinit(ime) && Istinit(prezime) && Istinit(datumRodenja)
    ensures r.Some? ==> r.value == Odgovor(400, Greska(SvaPolja))
  {
    if !Istinit(korime) || !Istinit(email) || !Istinit(lozinka) || !Istinit(ime) || !Istinit(prezime) || !Istinit(datumRodenja)
    then Some(Odgovor(400, Greska(SvaPolja)))
    else None
  }

  /** The profile-update guard: a principal is needed, and it must be the
      target user or an administrator. */
  function DozvolaAzuriranja(principal: Option<Principal>, korime: string): (r: Option<Odgovor>)
    ensures principal.None? ==> r == Some(Odgovor(401, Greska(NistePrijavljeni)))
    ensures principal.Some? && principal.value.korisnickoIme != korime && principal.value.uloga != UlogaAdministrator
            ==> r == Some(Odgovor(403, Greska(NemateDopustenje)))
    ensures r.None? <==> principal.Some? && (principal.value.korisnickoIme == korime || principal.value.uloga == UlogaAdministrator)
  {
    if principal.None? then Some(Odgovor(401, Greska(NistePrijavljeni)))
    else if principal.value.korisnickoIme != korime && principal.value.uloga != UlogaAdministrator
    then Some(Odgovor(403, Greska(NemateDopustenje)))
    else None
  }

  /** The logout guard: only the principal named in the route may log out,
      and an administrator is no exception. */
  function DozvolaOdjave(principal: Option<Principal>, korime: string): (r: Option<Odgovor>)
    ensures r.None? <==> principal.Some? && principal.value.korisnickoIme == korime
    ensures r.Some? ==> r.value == Odgovor(401, Greska(NistePrijavljeni))
  {
    if principal.None? || principal.value.korisnickoIme != korime then Some(Odgovor(401, Greska(NistePrijavljeni)))
    else None
  }

  // ---------------------------------------------------------------------
  // Registration

  /** POST /rest/korisnici on store `t`, with `sol` the fresh salt. */
  function RegistracijaSpec(t: Tablice, hash: (string, string) -> string, zadanaUloga: string, zadanoAktivan: int,
                            korime: Option<string>, email: Option<string>, lozinka: Option<string>,
                            ime: Option<string>, prezime: Option<string>, datumRodenja: Option<string>,
                            sol: string): (r: Ishod)
    ensures r.odgovor.status == 201 || r.odgovor.status == 400
    ensures r.odgovor.status == 400 ==> r.stanje == t
    ensures r.stanje.neuspjesnePrijave == t.neuspjesnePrijave
  {
    match PoljaRegistracije(korime, email, lozinka, ime, prezime, datumRodenja)
    case Some(g) => Ishod(g, t)
    case None =>
      if Zauzeto(t.korisnik, korime.value, email.value) then Ishod(Odgovor(400, Greska(PorukaPostoji)), t)
      else Ishod(Odgovor(201, Registrirano(UspjesnaRegistracija, t.sljedeciId)),
                 Umetni(t, Registriran(hash, zadanaUloga, zadanoAktivan, korime.value, email.value, lozinka.value,
                                       ime.value, prezime.value, datumRodenja.value, sol)))
  }

  /** Registration answers 400 and leaves the store alone when a field is
      missing or the username or email is taken; otherwise it answers 201
      with the new rowid and adds exactly one row, which stores the salted
      hash of the password and which GET /rest/korisnici/:korime now finds. */
  lemma RegistracijaIshod(t: Tablice, hash: (string, string) -> string, zadanaUloga: string, zadanoAktivan: int,
                          korime: Option<string>, email: Option<string>, lozinka: Option<string>,
                          ime: Option<string>, prezime: Option<string>, datumRodenja: Option<string>, sol: string)
    requires Ispravno(t)
    ensures var r := RegistracijaSpec(t, hash, zadanaUloga, zadanoAktivan, korime, email, lozinka, ime, prezime, datumRodenja, sol);
            && (r.odgovor.status == 201 <==>
                  PoljaRegistracije(korime, email, lozinka, ime, prezime, datumRodenja).None?
                  && !Zauzeto(t.korisnik, korime.value, email.value))
            && (r.odgovor.status != 201 ==> r.odgovor.status == 400 && r.stanje == t)
            && (r.odgovor.status == 201 ==>
                  && r.odgovor.tijelo == Registrirano(UspjesnaRegistracija, t.sljedeciId)
                  && Ispravno(r.stanje)
                  && |r.stanje.korisnik| == |t.korisnik| + 1
                  && r.stanje.korisnik[..|t.korisnik|] == t.korisnik
                  && r.stanje.neuspjesnePrijave == t.neuspjesnePrijave
                  && r.stanje.korisnik[|t.korisnik|].id == t.sljedeciId
                  && r.stanje.korisnik[|t.korisnik|].lozinka == hash(lozinka.value, sol)
                  && r.stanje.korisnik[|t.korisnik|].sol == sol
                  && KorisnikPoImenu(r.stanje.korisnik, korime.value)
                     == Odgovor(200, JedanKorisnik(JavniKorisnik(t.sljedeciId, korime.value, email, ime, prezime, datumRodenja,
                                                                 zadanaUloga, zadanoAktivan))))
  {
    var r := RegistracijaSpec(t, hash, zadanaUloga, zadanoAktivan, korime, email, lozinka, ime, prezime, datumRodenja, sol);
    if r.odgovor.status == 201 {
      var k := Registriran(hash, zadanaUloga, zadanoAktivan, korime.value, email.value, lozinka.value,
                           ime.value, prezime.value, datumRodenja.value, sol);
      assert Redak(t.korisnik, k.korisnickoIme).None? by {
        assert forall j :: 0 <= j < |t.korisnik| ==> t.korisnik[j].korisnickoIme != korime.value;
      }
      UmetniIspravno(t, k);
      PozicijaDodaj(t.korisnik, k.(id := t.sljedeciId), korime.value);
      assert r.stanje.korisnik[..|t.korisnik|] == t.korisnik;
    }
  }

  /** The registration handler. */
  method Registracija(baza: Baza, korime: Option<string>, email: Option<string>, lozinka: Option<string>,
                      ime: Option<string>, prezime: Option<string>, datumRodenja: Option<string>,
                      sol: string) returns (o: Odgovor)
    requires baza.Valid()
    modifies baza
    ensures baza.Valid()
    ensures var r := RegistracijaSpec(old(baza.Stanje()), baza.hash, baza.zadanaUloga, baza.zadanoAktivan,
                                      korime, email, lozinka, ime, prezime, datumRodenja, sol);
            o == r.odgovor && baza.Stanje() == r.stanje
  {
    var g := PoljaRegistracije(korime, email, lozinka, ime, prezime, datumRodenja);
    if g.Some? {
      o := g.value;
      return;
    }
    var id := baza.RegistrirajKorisnika(korime.value, email.value, lozinka.value, ime.value, prezime.value,
                                        datumRodenja.value, sol);
    if id.Err? {
      o := Odgovor(400, Greska(id.poruka));
      return;
    }
    o := Odgovor(201, Registrirano(UspjesnaRegistracija, id.value));
  }

  // ---------------------------------------------------------------------
  // Profile update and logout

  /** PUT /rest/korisnici/:korime.  Body fields that are absent are written
      as NULL. */
  method AzurirajProfil(baza: Baza, sesija: Sesija, korime: string, email: Option<string>, ime: Option<string>,
                        prezime: Option<string>, datumRodenja: Option<string>) returns (o: Odgovor)
    requires baza.Valid()
    modifies baza
    ensures baza.Valid()
    ensures DozvolaAzuriranja(sesija.korisnik, korime).Some? ==>
              o == DozvolaAzuriranja(sesija.korisnik, korime).value && baza.Stanje() == old(baza.Stanje())
    ensures DozvolaAzuriranja(sesija.korisnik, korime).None? ==>
              && o == Odgovor(201, Poruka(KorisnikAzuriran))
              && baza.Stanje() == old(baza.Stanje()).(korisnik := Azurirano(old(baza.korisnik), korime, email, ime, prezime, datumRodenja))
  {
    var g := DozvolaAzuriranja(sesija.korisnik, korime);
    if g.Some? {
      o := g.value;
      return;
    }
    baza.AzurirajKorisnika(korime, email, ime, prezime, datumRodenja);
    o := Odgovor(201, Poruka(KorisnikAzuriran));
  }

  /** An update that the guard lets through rewrites no row but the
      principal's own, unless the principal is an administrator, and keeps
      the target's password check and active flag, so the same logins
      succeed afterwards. */
  lemma AzuriranjeNeDiraPrijavu(t: Tablice, hash: (string, string) -> string, principal: Option<Principal>, korime: string,
                                email: Option<string>, ime: Option<string>, prezime: Option<string>, datumRodenja: Option<string>,
                                lozinka: string)
    requires DozvolaAzuriranja(principal, korime).None?
    ensures principal.Some?
    ensures var r := Azurirano(t.korisnik, korime, email, ime, prezime, datumRodenja);
            forall i :: 0 <= i < |r| && r[i] != t.korisnik[i] ==>
              r[i].korisnickoIme == principal.value.korisnickoIme || principal.value.uloga == UlogaAdministrator
    ensures var r := Azurirano(t.korisnik, korime, email, ime, prezime, datumRodenja);
            && Aktivnost(r, korime) == Aktivnost(t.korisnik, korime)
            && (Provjeri(r, hash, korime, lozinka).Ok? <==> Provjeri(t.korisnik, hash, korime, lozinka).Ok?)
  {
    AzuriranjePaProvjera(t.korisnik, hash, korime, lozinka, email, ime, prezime, datumRodenja);
  }

  /** PUT /rest/korisnici/:korime/odjava: destroying the session leaves it
      without a principal. */
  method Odjava(sesija: Sesija, korime: string) returns (o: Odgovor)
    modifies sesija
    ensures DozvolaOdjave(old(sesija.korisnik), korime).Some? ==>
              o == Odgovor(401, Greska(NistePrijavljeni)) && sesija.korisnik == old(sesija.korisnik)
    ensures DozvolaOdjave(old(sesija.korisnik), korime).None? ==>
              o == Odgovor(201, Poruka(UspjesnaOdjava)) && sesija.korisnik == None
  {
    var g := DozvolaOdjave(sesija.korisnik, korime);
    if g.Some? {
      o := g.value;
      return;
    }
    sesija.korisnik := None;
    o := Odgovor(201, Poruka(UspjesnaOdjava));
  }

  // ---------------------------------------------------------------------
  // Login and lockout

  /** `zahtjev.ip || ''`. */
  function IpAdresa(ip: Option<string>): (r: string)
    ensures r != "" <==> Istinit(ip)
    ensures r != "" ==> ip == Some(r)
  {
    if Istinit(ip) then ip.value else ""
  }

  /** `broj && broj >= maxNeuspjesne`: a count of 0 never locks, and a
      threshold that is NaN never compares true. */
  predicate Premasen(broj: nat, max: Option<int>)
    ensures max.None? ==> !Premasen(broj, max)
    ensures max.Some? && max.value >= 1 ==> (Premasen(broj, max) <==> broj >= max.value)
    ensures max.Some? && max.value < 1 ==> (Premasen(broj, max) <==> broj >= 1)
  {
    broj != 0 && max.Some? && broj >= max.value
  }

  /** POST /rest/korisnici/:korime/prijava on store `t` at time `sada`, with
      `max` the parsed `neuspjesnePrijave` setting and `sesija` the session
      principal before the call. */
  function PrijavaSpec(t: Tablice, hash: (string, string) -> string, korime: string, lozinka: Option<string>,
                       ip: Option<string>, sada: int, max: Option<int>, sesija: Option<Principal>): (r: IshodPrijave)
    ensures r.odgovor.status == 201 || r.odgovor.status == 400 || r.odgovor.status == 401
    ensures r.odgovor.status != 201 ==> r.sesija == sesija
    ensures r.odgovor.status == 201 ==> r.sesija.Some? && r.sesija.value.korisnickoIme == korime
    ensures |r.stanje.korisnik| == |t.korisnik| && r.stanje.sljedeciId == t.sljedeciId
  {
    if !Istinit(lozinka) then IshodPrijave(Odgovor(400, Greska(LozinkaObavezna)), t, sesija)
    else if Aktivnost(t.korisnik, korime) != Ok(true) then IshodPrijave(Odgovor(401, Greska(RacunZakljucan)), t, sesija)
    else match Provjeri(t.korisnik, hash, korime, lozinka.value)
      case Err(_) =>
        var t1 := t.(neuspjesnePrijave := t.neuspjesnePrijave + [NeuspjesnaPrijava(korime, IpAdresa(ip), sada)]);
        if Premasen(BrojNedavnih(t1.neuspjesnePrijave, korime, sada), max)
        then IshodPrijave(Odgovor(401, Greska(PrevisePokusaja)), t1.(korisnik := PostaviAktivan(t1.korisnik, korime, 0)), sesija)
        else IshodPrijave(Odgovor(401, Greska(PorukaNetocna)), t1, sesija)
      case Ok(p) =>
        IshodPrijave(Odgovor(201, Prijavljen(UspjesnaPrijava, p)),
                     t.(neuspjesnePrijave := Ocisti(t.neuspjesnePrijave, korime)), Some(p))
  }

  /** The login handler.  The threshold is read from the configuration with
      `parseInt`, as the source does on every request. */
  method Prijava(baza: Baza, sesija: Sesija, konf: Konfiguracija, korime: string,
                 lozinka: Option<string>, ip: Option<string>, sada: int) returns (o: Odgovor)
    requires baza.Valid()
    modifies baza, sesija
    ensures baza.Valid()
    ensures var r := PrijavaSpec(old(baza.Stanje()), baza.hash, korime, lozinka, ip, sada,
                                 ParseIntVrijednosti(konf.Daj("neuspjesnePrijave")), old(sesija.korisnik));
            o == r.odgovor && baza.Stanje() == r.stanje && sesija.korisnik == r.sesija
  {
    var max := ParseIntVrijednosti(konf.Daj("neuspjesnePrijave"));
    ghost var t := baza.Stanje();
    ghost var r := PrijavaSpec(t, baza.hash, korime, lozinka, ip, sada, max, sesija.korisnik);
    if !Istinit(lozinka) {
      o := Odgovor(400, Greska(LozinkaObavezna));
      return;
    }
    var aktivan := baza.ProvjeriAktivnost(korime);
    if aktivan.Err? || !aktivan.value {
      assert r == IshodPrijave(Odgovor(401, Greska(RacunZakljucan)), t, sesija.korisnik);
      o := Odgovor(401, Greska(RacunZakljucan));
      return;
    }
    var korisnik := baza.ProvjeriKorisnika(korime, lozinka.value);
    if korisnik.Err? {
      ghost var t1 := t.(neuspjesnePrijave := t.neuspjesnePrijave + [NeuspjesnaPrijava(korime, IpAdresa(ip), sada)]);
      baza.EvidentirajNeuspjesnuPrijavu(korime, IpAdresa(ip), sada);
      assert baza.Stanje() == t1;
      var broj := baza.BrojNeuspjesnihPrijava(korime, sada);
      if Premasen(broj, max) {
        assert r == IshodPrijave(Odgovor(401, Greska(PrevisePokusaja)), t1.(korisnik := PostaviAktivan(t1.korisnik, korime, 0)), sesija.korisnik);
        baza.ZakljucajRacun(korime);
        o := Odgovor(401, Greska(PrevisePokusaja));
        return;
      }
      assert r == IshodPrijave(Odgovor(401, Greska(PorukaNetocna)), t1, sesija.korisnik);
      o := Odgovor(401, Greska(PorukaNetocna));
      return;
    }
    assert r == IshodPrijave(Odgovor(201, Prijavljen(UspjesnaPrijava, korisnik.value)),
                             t.(neuspjesnePrijave := Ocisti(t.neuspjesnePrijave, korime)), Some(korisnik.value));
    baza.OcistiNeuspjesnePrijave(korime);
    sesija.korisnik := Some(korisnik.value);
    o := Odgovor(201, Prijavljen(UspjesnaPrijava, korisnik.value));
  }

  /** Without a password the login answers 400 and changes nothing. */
  lemma PrijavaBezLozinke(t: Tablice, hash: (string, string) -> string, korime: string, lozinka: Option<string>,
                          ip: Option<string>, sada: int, max: Option<int>, sesija: Option<Principal>)
    requires !Istinit(lozinka)
    ensures PrijavaSpec(t, hash, korime, lozinka, ip, sada, max, sesija)
            == IshodPrijave(Odgovor(400, Greska(LozinkaObavezna)), t, sesija)
  {
  }

  /** An absent or locked account is refused with 401 before the password is
      looked at: even the right password is refused, and no failure is
      recorded. */
  lemma ZakljucanRacunOdbija(t: Tablice, hash: (string, string) -> string, korime: string, lozinka: Option<string>,
                             ip: Option<string>, sada: int, max: Option<int>, sesija: Option<Principal>)
    requires Istinit(lozinka)
    requires Redak(t.korisnik, korime).None? || Redak(t.korisnik, korime).value.aktivan != 1
    ensures PrijavaSpec(t, hash, korime, lozinka, ip, sada, max, sesija)
            == IshodPrijave(Odgovor(401, Greska(RacunZakljucan)), t, sesija)
  {
  }

  /** A wrong password on an active account records exactly one failure,
      which raises this user's count by one.  The account is locked, with
      the "too many attempts" reply, exactly when the new count reaches the
      threshold; otherwise it stays active and the reply is "Netocna
      lozinka".  The session is untouched either way. */
  lemma PogresnaLozinka(t: Tablice, hash: (string, string) -> string, korime: string, lozinka: Option<string>,
                        ip: Option<string>, sada: int, max: Option<int>, sesija: Option<Principal>)
    requires Istinit(lozinka) && Aktivnost(t.korisnik, korime) == Ok(true)
    requires hash(lozinka.value, Redak(t.korisnik, korime).value.sol) != Redak(t.korisnik, korime).value.lozinka
    ensures var r := PrijavaSpec(t, hash, korime, lozinka, ip, sada, max, sesija);
            var broj := BrojNedavnih(t.neuspjesnePrijave, korime, sada) + 1;
            && r.sesija == sesija
            && r.stanje.neuspjesnePrijave == t.neuspjesnePrijave + [NeuspjesnaPrijava(korime, IpAdresa(ip), sada)]
            && BrojNedavnih(r.stanje.neuspjesnePrijave, korime, sada) == broj
            && r.stanje.sljedeciId == t.sljedeciId
            && (max.Some? && broj >= max.value ==>
                  && r.odgovor == Odgovor(401, Greska(PrevisePokusaja))
                  && r.stanje.korisnik == PostaviAktivan(t.korisnik, korime, 0)
                  && Aktivnost(r.stanje.korisnik, korime) == Ok(false))
            && (!(max.Some? && broj >= max.value) ==>
                  && r.odgovor == Odgovor(401, Greska(PorukaNetocna))
                  && r.stanje.korisnik == t.korisnik)
  {
    var n := t.neuspjesnePrijave + [NeuspjesnaPrijava(korime, IpAdresa(ip), sada)];
    BrojNakonDodavanja(t.neuspjesnePrijave, NeuspjesnaPrijava(korime, IpAdresa(ip), sada), korime, sada);
    PostaviAktivanUcinak(t.korisnik, korime, 0, korime);
  }

  /** The right password on an active account answers 201 with the
      principal, stores it in the session, and clears this user's failures
      (and nobody else's); no user row changes. */
  lemma IspravnaLozinka(t: Tablice, hash: (string, string) -> string, korime: string, lozinka: Option<string>,
                        ip: Option<string>, sada: int, max: Option<int>, sesija: Option<Principal>, drugi: string, kasnije: int)
    requires Istinit(lozinka) && Aktivnost(t.korisnik, korime) == Ok(true)
    requires hash(lozinka.value, Redak(t.korisnik, korime).value.sol) == Redak(t.korisnik, korime).value.lozinka
    ensures var r := PrijavaSpec(t, hash, korime, lozinka, ip, sada, max, sesija);
            var k := Redak(t.korisnik, korime).value;
            && r.odgovor == Odgovor(201, Prijavljen(UspjesnaPrijava, Principal(k.id, korime, k.email, k.uloga)))
            && r.sesija == Some(Principal(k.id, korime, k.email, k.uloga))
            && r.stanje.korisnik == t.korisnik
            && BrojNedavnih(r.stanje.neuspjesnePrijave, korime, kasnije) == 0
            && (drugi != korime ==> ZapisiZa(r.stanje.neuspjesnePrijave, drugi) == ZapisiZa(t.neuspjesnePrijave, drugi))
  {
    BrojNakonCiscenja(t.neuspjesnePrijave, korime, drugi, kasnije);
    OcistiUcinak(t.neuspjesnePrijave, korime, drugi);
  }

  /** A user who has just registered (with the schema's default flag active)
      can log in with the password they registered with. */
  lemma RegistracijaPaPrijava(t: Tablice, hash: (string, string) -> string, zadanaUloga: string,
                              korime: string, email: string, lozinka: string, ime: string, prezime: string,
                              datumRodenja: string, sol: string, ip: Option<string>, sada: int, max: Option<int>,
                              sesija: Option<Principal>)
    requires Ispravno(t)
    requires !Zauzeto(t.korisnik, korime, email)
    requires lozinka != ""
    ensures var t' := Umetni(t, Registriran(hash, zadanaUloga, 1, korime, email, lozinka, ime, prezime, datumRodenja, sol));
            var p := Principal(t.sljedeciId, korime, Some(email), zadanaUloga);
            PrijavaSpec(t', hash, korime, Some(lozinka), ip, sada, max, sesija).odgovor
            == Odgovor(201, Prijavljen(UspjesnaPrijava, p))
  {
    RegistracijaPaProvjera(t, hash, zadanaUloga, 1, korime, email, lozinka, ime, prezime, datumRodenja, sol, "");
  }

  // ---------------------------------------------------------------------
  // A run of logins

  /** One login attempt: password, client address and time. */
  datatype Pokusaj = Pokusaj(lozinka: Option<string>, ip: Option<string>, vrijeme: int)

  /** The replies to a run of attempts on one username, the store after it
      and the session principal after it. */
  datatype Tijek = Tijek(odgovori: seq<Odgovor>, stanje: Tablice, sesija: Option<Principal>)

  function NizPrijava(t: Tablice, hash: (string, string) -> string, korime: string, pokusaji: seq<Pokusaj>,
                      max: Option<int>, sesija: Option<Principal>): (r: Tijek)
    ensures |r.odgovori| == |pokusaji|
  {
    if |pokusaji| == 0 then Tijek([], t, sesija)
    else
      var prije := NizPrijava(t, hash, korime, pokusaji[..|pokusaji| - 1], max, sesija);
      var p := pokusaji[|pokusaji| - 1];
      var r := PrijavaSpec(prije.stanje, hash, korime, p.lozinka, p.ip, p.vrijeme, max, prije.sesija);
      Tijek(prije.odgovori + [r.odgovor], r.stanje, r.sesija)
  }

  /** A password that is given but does not match the user's stored hash. */
  predicate Pogresna(redovi: seq<Korisnik>, hash: (string, string) -> string, korime: string, lozinka: Option<string>)
    requires Redak(redovi, korime).Some?
    ensures Pogresna(redovi, hash, korime, lozinka) <==>
              Istinit(lozinka) && Provjeri(redovi, hash, korime, lozinka.value) == Err(PorukaNetocna)
  {
    Istinit(lozinka) && hash(lozinka.value, Redak(redovi, korime).value.sol) != Redak(redovi, korime).value.lozinka
  }

  /** The failure records a run of attempts writes. */
  function Zapisi(korime: string, pokusaji: seq<Pokusaj>): (r: seq<NeuspjesnaPrijava>)
    ensures |r| == |pokusaji|
  {
    seq(|pokusaji|, i requires 0 <= i < |pokusaji| =>
      NeuspjesnaPrijava(korime, IpAdresa(pokusaji[i].ip), pokusaji[i].vrijeme))
  }

  /** A user whose earlier records all lie outside the window and who then
      fails `k` times within it has a count of `k`. */
  lemma {:induction false} BrojZapisa(n: seq<NeuspjesnaPrijava>, korime: string, pokusaji: seq<Pokusaj>, sada: int)
    requires forall i :: 0 <= i < |n| && n[i].korisnickoIme == korime ==> n[i].vrijeme <= sada - ProzorSekundi
    requires forall i :: 0 <= i < |pokusaji| ==> pokusaji[i].vrijeme > sada - ProzorSekundi
    ensures BrojNedavnih(n + Zapisi(korime, pokusaji), korime, sada) == |pokusaji|
    decreases |pokusaji|
  {
    if |pokusaji| == 0 {
      assert n + Zapisi(korime, pokusaji) == n;
      BrojBezZapisa(n, korime, sada);
    } else {
      var q := pokusaji[..|pokusaji| - 1];
      var s := n + Zapisi(korime, pokusaji);
      assert s[..|s| - 1] == n + Zapisi(korime, q);
      BrojZapisa(n, korime, q, sada);
    }
  }

  /** Records of other users and records older than the window do not
      count. */
  lemma {:induction false} BrojBezZapisa(n: seq<NeuspjesnaPrijava>, korime: string, sada: int)
    requires forall i :: 0 <= i < |n| && n[i].korisnickoIme == korime ==> n[i].vrijeme <= sada - ProzorSekundi
    ensures BrojNedavnih(n, korime, sada) == 0
  {
    if |n| > 0 {
      BrojBezZapisa(n[..|n| - 1], korime, sada);
    }
  }

  /** The replies of the lockout: "Netocna lozinka" until the `m`-th. */
  function OdgovoriNiza(k: nat, m: int): (r: seq<Odgovor>)
    ensures |r| == k
  {
    seq(k, i requires 0 <= i < k => Odgovor(401, Greska(if i + 1 == m then PrevisePokusaja else PorukaNetocna)))
  }

  /** The store after `k` of the run's failures, `k` below the threshold. */
  function NakonPogresaka(t: Tablice, korime: string, pokusaji: seq<Pokusaj>): Tablice
  {
    t.(neuspjesnePrijave := t.neuspjesnePrijave + Zapisi(korime, pokusaji))
  }

  /** An active account whose recorded failures, if any, are all at least
      30 minutes older than the instant `od`. */
  predicate Nezakljucan(t: Tablice, korime: string, od: int)
  {
    && Aktivnost(t.korisnik, korime) == Ok(true)
    && forall i :: 0 <= i < |t.neuspjesnePrijave| && t.neuspjesnePrijave[i].korisnickoIme == korime ==>
         t.neuspjesnePrijave[i].vrijeme <= od - ProzorSekundi
  }

  /** Records older than the window before `od` are older than the window
      before any later instant. */
  lemma Zastarjeli(n: seq<NeuspjesnaPrijava>, korime: string, od: int, sada: int)
    requires od <= sada
    requires forall i :: 0 <= i < |n| && n[i].korisnickoIme == korime ==> n[i].vrijeme <= od - ProzorSekundi
    ensures forall i :: 0 <= i < |n| && n[i].korisnickoIme == korime ==> n[i].vrijeme <= sada - ProzorSekundi
  {
  }

  /** Every attempt of the run gives a wrong password, and all of them fall
      in the 30-minute window starting at `od`. */
  predicate PogresneUProzoru(t: Tablice, hash: (string, string) -> string, korime: string,
                             pokusaji: seq<Pokusaj>, od: int)
    requires Redak(t.korisnik, korime).Some?
  {
    forall i :: 0 <= i < |pokusaji| ==>
      Pogresna(t.korisnik, hash, korime, pokusaji[i].lozinka) && od <= pokusaji[i].vrijeme < od + ProzorSekundi
  }

  /** What a run of `k <= m` such failures leaves: the session untouched,
      the replies of `OdgovoriNiza`, one record per attempt, and the user
      row locked exactly when the run reaches `m`. */
  predicate IshodNiza(r: Tijek, t: Tablice, korime: string, pokusaji: seq<Pokusaj>, m: int, sesija: Option<Principal>)
  {
    && r.sesija == sesija
    && r.odgovori == OdgovoriNiza(|pokusaji|, m)
    && r.stanje == NakonPogresaka(t, korime, pokusaji).(korisnik :=
         if |pokusaji| == m then PostaviAktivan(t.korisnik, korime, 0) else t.korisnik)
  }

  /** The lockout: on an active account whose recorded failures all lie at
      least 30 minutes before the window, a run of wrong passwords, all
      within one 30-minute window, is answered "Netocna lozinka" until the
      `m`-th, which locks the account and is answered "too many attempts".
      Until then no user row changes; every attempt leaves its record. */
  lemma {:induction false} Zakljucavanje(t: Tablice, hash: (string, string) -> string, korime: string,
                                         pokusaji: seq<Pokusaj>, m: int, od: int, sesija: Option<Principal>)
    requires Nezakljucan(t, korime, od)
    requires 1 <= m && |pokusaji| <= m
    requires PogresneUProzoru(t, hash, korime, pokusaji, od)
    ensures IshodNiza(NizPrijava(t, hash, korime, pokusaji, Some(m), sesija), t, korime, pokusaji, m, sesija)
    decreases |pokusaji|
  {
    if |pokusaji| > 0 {
      var q := pokusaji[..|pokusaji| - 1];
      var p := pokusaji[|pokusaji| - 1];
      assert PogresneUProzoru(t, hash, korime, q, od) by {
        forall i | 0 <= i < |q| ensures q[i] == pokusaji[i] { }
      }
      Zakljucavanje(t, hash, korime, q, m, od, sesija);
      ZadnjiOdvojen(pokusaji);
      ProduzeniNiz(t, hash, korime, q, p, m, od, sesija);
    }
  }

  lemma ZadnjiOdvojen(pokusaji: seq<Pokusaj>)
    requires |pokusaji| > 0
    ensures pokusaji[..|pokusaji| - 1] + [pokusaji[|pokusaji| - 1]] == pokusaji
  {
  }

  /** The induction step of the lockout, stated on the runs themselves. */
  lemma ProduzeniNiz(t: Tablice, hash: (string, string) -> string, korime: string,
                     q: seq<Pokusaj>, p: Pokusaj, m: int, od: int, sesija: Option<Principal>)
    requires Nezakljucan(t, korime, od)
    requires |q| < m
    requires PogresneUProzoru(t, hash, korime, q + [p], od)
    requires IshodNiza(NizPrijava(t, hash, korime, q, Some(m), sesija), t, korime, q, m, sesija)
    ensures IshodNiza(NizPrijava(t, hash, korime, q + [p], Some(m), sesija), t, korime, q + [p], m, sesija)
  {
    NizJedanKorak(t, hash, korime, q, p, Some(m), sesija);
    KorakNiza(t, hash, korime, q, p, m, od, sesija, NizPrijava(t, hash, korime, q, Some(m), sesija));
  }

  /** One more wrong password after k < m of them: the count becomes k + 1,
      which locks exactly when it reaches `m`. */
  lemma KorakNiza(t: Tablice, hash: (string, string) -> string, korime: string,
                  q: seq<Pokusaj>, p: Pokusaj, m: int, od: int, sesija: Option<Principal>, prije: Tijek)
    requires Nezakljucan(t, korime, od)
    requires |q| < m
    requires PogresneUProzoru(t, hash, korime, q + [p], od)
    requires IshodNiza(prije, t, korime, q, m, sesija)
    ensures var r := PrijavaSpec(prije.stanje, hash, korime, p.lozinka, p.ip, p.vrijeme, Some(m), prije.sesija);
            IshodNiza(Tijek(prije.odgovori + [r.odgovor], r.stanje, r.sesija), t, korime, q + [p], m, sesija)
  {
    KorakPrijave(t, hash, korime, q, p, m, od, prije.stanje, prije.sesija);
    OdgovoriNizaKorak(|q|, m);
  }

  lemma OdgovoriNizaKorak(k: nat, m: int)
    ensures OdgovoriNiza(k + 1, m) == OdgovoriNiza(k, m) + [Odgovor(401, Greska(if k + 1 == m then PrevisePokusaja else PorukaNetocna))]
  {
  }

  /** A run one attempt longer is the shorter run followed by one login. */
  lemma NizJedanKorak(t: Tablice, hash: (string, string) -> string, korime: string,
                      q: seq<Pokusaj>, p: Pokusaj, max: Option<int>, sesija: Option<Principal>)
    ensures var prije := NizPrijava(t, hash, korime, q, max, sesija);
            var r := PrijavaSpec(prije.stanje, hash, korime, p.lozinka, p.ip, p.vrijeme, max, prije.sesija);
            NizPrijava(t, hash, korime, q + [p], max, sesija) == Tijek(prije.odgovori + [r.odgovor], r.stanje, r.sesija)
  {
    assert (q + [p])[..|q|] == q;
  }

  /** The (k+1)-th wrong password of the run, on the store the first k left. */
  lemma KorakPrijave(t: Tablice, hash: (string, string) -> string, korime: string,
                     q: seq<Pokusaj>, p: Pokusaj, m: int, od: int, s: Tablice, sesija: Option<Principal>)
    requires Nezakljucan(t, korime, od)
    requires |q| < m
    requires PogresneUProzoru(t, hash, korime, q + [p], od)
    requires s == NakonPogresaka(t, korime, q)
    ensures var r := PrijavaSpec(s, hash, korime, p.lozinka, p.ip, p.vrijeme, Some(m), sesija);
            && r.sesija == sesija
            && r.odgovor == Odgovor(401, Greska(if |q| + 1 == m then PrevisePokusaja else PorukaNetocna))
            && r.stanje == NakonPogresaka(t, korime, q + [p]).(korisnik :=
                 if |q| + 1 == m then PostaviAktivan(t.korisnik, korime, 0) else t.korisnik)
  {
    BrojUNizu(t, hash, korime, q, p, od);
    PogresnaLozinka(s, hash, korime, p.lozinka, p.ip, p.vrijeme, Some(m), sesija);
    var r := PrijavaSpec(s, hash, korime, p.lozinka, p.ip, p.vrijeme, Some(m), sesija);
    var zapis := NeuspjesnaPrijava(korime, IpAdresa(p.ip), p.vrijeme);
    assert r.stanje.neuspjesnePrijave == t.neuspjesnePrijave + Zapisi(korime, q + [p]) by {
      assert Zapisi(korime, q + [p]) == Zapisi(korime, q) + [zapis];
      SpojZapisa(t.neuspjesnePrijave, Zapisi(korime, q), [zapis]);
    }
    assert r.stanje.korisnik == (if |q| + 1 == m then PostaviAktivan(t.korisnik, korime, 0) else t.korisnik);
  }

  /** Before the (k+1)-th attempt of the run, k failures count: the earlier
      records are outside the window, the run's own inside it. */
  lemma BrojUNizu(t: Tablice, hash: (string, string) -> string, korime: string, q: seq<Pokusaj>, p: Pokusaj, od: int)
    requires Nezakljucan(t, korime, od)
    requires PogresneUProzoru(t, hash, korime, q + [p], od)
    ensures Pogresna(t.korisnik, hash, korime, p.lozinka)
    ensures BrojNedavnih(NakonPogresaka(t, korime, q).neuspjesnePrijave, korime, p.vrijeme) == |q|
  {
    ZadnjiUNizu(t, hash, korime, q, p, od);
    Zastarjeli(t.neuspjesnePrijave, korime, od, p.vrijeme);
    BrojZapisa(t.neuspjesnePrijave, korime, q, p.vrijeme);
  }

  /** The last attempt of a run is a wrong password, and every earlier one
      is less than 30 minutes older. */
  lemma ZadnjiUNizu(t: Tablice, hash: (string, string) -> string, korime: string, q: seq<Pokusaj>, p: Pokusaj, od: int)
    requires Redak(t.korisnik, korime).Some?
    requires PogresneUProzoru(t, hash, korime, q + [p], od)
    ensures Pogresna(t.korisnik, hash, korime, p.lozinka) && od <= p.vrijeme
    ensures forall i :: 0 <= i < |q| ==> q[i].vrijeme > p.vrijeme - ProzorSekundi
  {
    assert (q + [p])[|q|] == p;
    forall i | 0 <= i < |q| ensures q[i].vrijeme > p.vrijeme - ProzorSekundi {
      assert (q + [p])[i] == q[i];
    }
  }

  lemma SpojZapisa(a: seq<NeuspjesnaPrijava>, b: seq<NeuspjesnaPrijava>, c: seq<NeuspjesnaPrijava>)
    ensures a + b + c == a + (b + c)
  {
  }

  /** After the `m`-th failure of such a run the account is locked: its
      flag reads inactive and every further login, with whatever password,
      is refused without changing anything. */
  lemma ZakljucanNakonNiza(t: Tablice, hash: (string, string) -> string, korime: string,
                           pokusaji: seq<Pokusaj>, m: int, od: int, sesija: Option<Principal>, sljedeci: Pokusaj)
    requires Nezakljucan(t, korime, od)
    requires 1 <= m && |pokusaji| == m
    requires PogresneUProzoru(t, hash, korime, pokusaji, od)
    requires Istinit(sljedeci.lozinka)
    ensures var r := NizPrijava(t, hash, korime, pokusaji, Some(m), sesija);
            && r.odgovori[m - 1] == Odgovor(401, Greska(PrevisePokusaja))
            && Aktivnost(r.stanje.korisnik, korime) == Ok(false)
            && PrijavaSpec(r.stanje, hash, korime, sljedeci.lozinka, sljedeci.ip, sljedeci.vrijeme, Some(m), r.sesija)
               == IshodPrijave(Odgovor(401, Greska(RacunZakljucan)), r.stanje, r.sesija)
  {
    Zakljucavanje(t, hash, korime, pokusaji, m, od, sesija);
    PostaviAktivanUcinak(t.korisnik, korime, 0, korime);
  }

  /** A configuration the validator accepts yields a threshold of 3 to 10,
      so a run of that many failures locks the account. */
  lemma ProvjerenPrag(m: map<string, string>)
    requires Ispravna(m)
    ensures var max := ParseIntVrijednosti(Vrijednost(m, "neuspjesnePrijave"));
            max.Some? && 3 <= max.value <= 10
  {
  }
}
