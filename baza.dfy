/** The user store and the failed-login log (class `Baza` of
    src/zajednicko/baza.ts), with SQLite replaced by two in-memory tables.

    Every SQL statement of the source becomes a pure function on the table
    contents (`Tablice`), and each method of the class `Baza` is proved to
    change its fields exactly as that function says.  A `db.get` lookup
    returns the first matching row in rowid order; an `UPDATE`/`DELETE ...
    WHERE korisnicko_ime = ?` touches every matching row. */
module Baza {
  import opened Common

  /** A row of table `korisnik`.  The nullable text columns are `Option`s
      (`None` is SQL NULL); `aktivan` is the integer column. */
  datatype Korisnik = Korisnik(
    id: nat,
    korisnickoIme: string,
    email: Option<string>,
    lozinka: string,
    sol: string,
    ime: Option<string>,
    prezime: Option<string>,
    datumRodenja: Option<string>,
    uloga: string,
    aktivan: int)

  /** A row of table `neuspjesne_prijave`; `vrijeme` is in seconds. */
  datatype NeuspjesnaPrijava = NeuspjesnaPrijava(korisnickoIme: string, ipAdresa: string, vrijeme: int)

  /** The columns `id, korisnicko_ime, email, ime, prezime, datum_rodenja,
      uloga, aktivan` that the listing queries select: no hash, no salt. */
  datatype JavniKorisnik = JavniKorisnik(
    id: nat,
    korisnickoIme: string,
    email: Option<string>,
    ime: Option<string>,
    prezime: Option<string>,
    datumRodenja: Option<string>,
    uloga: string,
    aktivan: int)

  /** The database: table `korisnik` in rowid order, the rowid the next
      insert receives, and table `neuspjesne_prijave` in insertion order. */
  datatype Tablice = Tablice(korisnik: seq<Korisnik>, sljedeciId: nat, neuspjesnePrijave: seq<NeuspjesnaPrijava>)

  /** The trailing window of `datetime("now", "-30 minutes")`, in seconds. */
  const ProzorSekundi: int := 30 * 60

  /** The password of both seeded accounts. */
  const TestnaLozinka: string := "rwa"

  const PorukaPostoji: string := "Korisnicko ime ili email vec postoji"
  const PorukaNePostoji: string := "Korisnik ne postoji"
  const PorukaNetocna: string := "Netocna lozinka"

  /** The two seeded accounts, without hash, salt, rowid and active flag. */
  function Obican(hash: (string, string) -> string, sol: string, aktivan: int): (r: Korisnik)
    ensures r.korisnickoIme == "obican" && r.uloga == UlogaRegistrirani && r.aktivan == aktivan && r.sol == sol
    ensures Provjeri([r], hash, "obican", TestnaLozinka) == Ok(Principal(r.id, "obican", Some("obican@example.com"), UlogaRegistrirani))
  {
    Korisnik(0, "obican", Some("obican@example.com"), hash(TestnaLozinka, sol), sol,
             Some("Obican"), Some("Korisnik"), Some("1990-01-01"), UlogaRegistrirani, aktivan)
  }

  function Admin(hash: (string, string) -> string, sol: string, aktivan: int): (r: Korisnik)
    ensures r.korisnickoIme == "admin" && r.uloga == UlogaAdministrator && r.aktivan == aktivan && r.sol == sol
    ensures Provjeri([r], hash, "admin", TestnaLozinka) == Ok(Principal(r.id, "admin", Some("admin@example.com"), UlogaAdministrator))
  {
    Korisnik(0, "admin", Some("admin@example.com"), hash(TestnaLozinka, sol), sol,
             Some("Admin"), Some("Administrator"), Some("1985-01-01"), UlogaAdministrator, aktivan)
  }

  function Javno(k: Korisnik): (r: JavniKorisnik)
    ensures r.id == k.id && r.korisnickoIme == k.korisnickoIme && r.email == k.email
  {
    JavniKorisnik(k.id, k.korisnickoIme, k.email, k.ime, k.prezime, k.datumRodenja, k.uloga, k.aktivan)
  }

  /** The public record drops exactly the hash and the salt: two rows have
      the same public record exactly when they agree on every other column. */
  lemma JavnoStupci(a: Korisnik, b: Korisnik)
    ensures Javno(a) == Javno(b) <==> a.(lozinka := b.lozinka, sol := b.sol) == b
  {
  }

  // ---------------------------------------------------------------------
  // The table invariant

  /** Usernames are unique and rowids strictly increase and stay below the
      next rowid. */
  ghost predicate Ispravno(t: Tablice)
    ensures Ispravno(t) ==> forall i, j :: 0 <= i < |t.korisnik| && 0 <= j < |t.korisnik| && i != j ==>
                              t.korisnik[i].korisnickoIme != t.korisnik[j].korisnickoIme && t.korisnik[i].id != t.korisnik[j].id
  {
    && (forall i, j :: 0 <= i < j < |t.korisnik| ==> t.korisnik[i].korisnickoIme != t.korisnik[j].korisnickoIme)
    && (forall i, j :: 0 <= i < j < |t.korisnik| ==> t.korisnik[i].id < t.korisnik[j].id)
    && (forall i :: 0 <= i < |t.korisnik| ==> t.korisnik[i].id < t.sljedeciId)
  }

  // ---------------------------------------------------------------------
  // Queries on table korisnik

  /** The position of the row `SELECT ... WHERE korisnicko_ime = ?` yields
      to `db.get`: the first match. */
  function Pozicija(redovi: seq<Korisnik>, korime: string): (r: Option<nat>)
    ensures r.Some? ==> r.value < |redovi| && redovi[r.value].korisnickoIme == korime
    ensures r.Some? ==> forall j :: 0 <= j < r.value ==> redovi[j].korisnickoIme != korime
    ensures r.None? <==> forall j :: 0 <= j < |redovi| ==> redovi[j].korisnickoIme != korime
  {
    if |redovi| == 0 then None
    else if redovi[0].korisnickoIme == korime then Some(0)
    else match Pozicija(redovi[1..], korime)
      case None => None
      case Some(i) => Some(i + 1)
  }

  /** The row `db.get` yields for a username, if any. */
  function Redak(redovi: seq<Korisnik>, korime: string): (r: Option<Korisnik>)
    ensures r.None? <==> forall j :: 0 <= j < |redovi| ==> redovi[j].korisnickoIme != korime
    ensures r.Some? ==> r.value in redovi && r.value.korisnickoIme == korime
  {
    match Pozicija(redovi, korime)
    case None => None
    case Some(i) => Some(redovi[i])
  }

  /** `SELECT * FROM korisnik WHERE korisnicko_ime = ? OR email = ?` finds a
      row.  A NULL email equals nothing. */
  predicate Zauzeto(redovi: seq<Korisnik>, korime: string, email: string)
    ensures Redak(redovi, korime).Some? ==> Zauzeto(redovi, korime, email)
  {
    exists i :: 0 <= i < |redovi| && (redovi[i].korisnickoIme == korime || redovi[i].email == Some(email))
  }

  /** `provjeriKorisnika`: look the user up, hash the given password with the
      stored salt and compare with the stored hash. */
  function Provjeri(redovi: seq<Korisnik>, hash: (string, string) -> string, korime: string, lozinka: string): (r: Result<Principal>)
    ensures r.Ok? ==> r.value.korisnickoIme == korime
    ensures r.Err? ==> r.poruka == PorukaNePostoji || r.poruka == PorukaNetocna
    ensures r == Err(PorukaNePostoji) <==> Redak(redovi, korime).None?
    ensures Redak(redovi, korime).Some? && hash(lozinka, Redak(redovi, korime).value.sol) == Redak(redovi, korime).value.lozinka
            ==> r == Ok(Principal(Redak(redovi, korime).value.id, korime, Redak(redovi, korime).value.email, Redak(redovi, korime).value.uloga))
    ensures Redak(redovi, korime).Some? && hash(lozinka, Redak(redovi, korime).value.sol) != Redak(redovi, korime).value.lozinka
            ==> r == Err(PorukaNetocna)
  {
    match Redak(redovi, korime)
    case None => Err(PorukaNePostoji)
    case Some(k) =>
      if hash(lozinka, k.sol) == k.lozinka then Ok(Principal(k.id, k.korisnickoIme, k.email, k.uloga))
      else Err(PorukaNetocna)
  }

  /** `provjeriAktivnost`: the user's `aktivan` column equals 1. */
  function Aktivnost(redovi: seq<Korisnik>, korime: string): (r: Result<bool>)
    ensures r.Err? <==> Redak(redovi, korime).None?
    ensures r.Err? ==> r.poruka == PorukaNePostoji
    ensures r == Ok(true) ==> exists i :: 0 <= i < |redovi| && redovi[i].korisnickoIme == korime && redovi[i].aktivan == 1
    ensures r.Ok? ==> (r.value <==> Redak(redovi, korime).value.aktivan == 1)
  {
    match Redak(redovi, korime)
    case None => Err(PorukaNePostoji)
    case Some(k) => Ok(k.aktivan == 1)
  }

  // ---------------------------------------------------------------------
  // Statements on table korisnik

  /** `INSERT INTO korisnik`: the database assigns the next rowid. */
  function Umetni(t: Tablice, k: Korisnik): (r: Tablice)
    ensures |r.korisnik| == |t.korisnik| + 1 && r.korisnik[..|t.korisnik|] == t.korisnik
    ensures r.korisnik[|t.korisnik|] == k.(id := t.sljedeciId)
    ensures r.sljedeciId > t.sljedeciId && r.neuspjesnePrijave == t.neuspjesnePrijave
  {
    Tablice(t.korisnik + [k.(id := t.sljedeciId)], t.sljedeciId + 1, t.neuspjesnePrijave)
  }

  /** The row the registration INSERT writes: the hash of the password with
      the fresh salt, and the schema defaults for `uloga` and `aktivan`. */
  function Registriran(hash: (string, string) -> string, zadanaUloga: string, zadanoAktivan: int,
                       korime: string, email: string, lozinka: string,
                       ime: string, prezime: string, datumRodenja: string, sol: string): (r: Korisnik)
    ensures r.korisnickoIme == korime && r.email == Some(email) && r.sol == sol
    ensures Provjeri([r], hash, korime, lozinka) == Ok(Principal(r.id, korime, Some(email), zadanaUloga))
    ensures Aktivnost([r], korime) == Ok(zadanoAktivan == 1)
    ensures Javno(r) == JavniKorisnik(r.id, korime, Some(email), Some(ime), Some(prezime), Some(datumRodenja),
                                      zadanaUloga, zadanoAktivan)
  {
    Korisnik(0, korime, Some(email), hash(lozinka, sol), sol, Some(ime), Some(prezime), Some(datumRodenja),
             zadanaUloga, zadanoAktivan)
  }

  /** `UPDATE korisnik SET aktivan = ? WHERE korisnicko_ime = ?`. */
  function PostaviAktivan(redovi: seq<Korisnik>, korime: string, aktivan: int): (r: seq<Korisnik>)
    ensures |r| == |redovi|
    ensures forall i :: 0 <= i < |r| ==> r[i].(aktivan := redovi[i].aktivan) == redovi[i]
    ensures forall i :: 0 <= i < |r| ==> r[i].aktivan == if redovi[i].korisnickoIme == korime then aktivan else redovi[i].aktivan
  {
    seq(|redovi|, i requires 0 <= i < |redovi| =>
      if redovi[i].korisnickoIme == korime then redovi[i].(aktivan := aktivan) else redovi[i])
  }

  /** `UPDATE korisnik SET email = ?, ime = ?, prezime = ?, datum_rodenja = ?
      WHERE korisnicko_ime = ?`. */
  function Azurirano(redovi: seq<Korisnik>, korime: string, email: Option<string>, ime: Option<string>,
                     prezime: Option<string>, datumRodenja: Option<string>): (r: seq<Korisnik>)
    ensures |r| == |redovi|
    ensures forall i :: 0 <= i < |r| ==> r[i].korisnickoIme == redovi[i].korisnickoIme
    ensures forall i :: 0 <= i < |r| ==> r[i].korisnickoIme != korime ==> r[i] == redovi[i]
  {
    seq(|redovi|, i requires 0 <= i < |redovi| =>
      if redovi[i].korisnickoIme == korime
      then redovi[i].(email := email, ime := ime, prezime := prezime, datumRodenja := datumRodenja)
      else redovi[i])
  }

  /** `kreirajTestneKorisnike`: insert `obican` and then `admin`, each only
      when no row has that username. */
  function Sijanje(t: Tablice, hash: (string, string) -> string, aktivan: int, sol1: string, sol2: string): (r: Tablice)
    ensures t.korisnik <= r.korisnik && r.neuspjesnePrijave == t.neuspjesnePrijave
    ensures Redak(r.korisnik, "obican").Some? && Redak(r.korisnik, "admin").Some?
  {
    var t1 := if Redak(t.korisnik, "obican").None? then Umetni(t, Obican(hash, sol1, aktivan)) else t;
    if Redak(t1.korisnik, "admin").None? then Umetni(t1, Admin(hash, sol2, aktivan)) else t1
  }

  // ---------------------------------------------------------------------
  // Table neuspjesne_prijave

  /** `SELECT COUNT(*) FROM neuspjesne_prijave WHERE korisnicko_ime = ? AND
      vrijeme > now - 30 minutes`. */
  function BrojNedavnih(prijave: seq<NeuspjesnaPrijava>, korime: string, sada: int): (n: nat)
    ensures n <= |prijave|
  {
    if |prijave| == 0 then 0
    else
      var p := prijave[|prijave| - 1];
      BrojNedavnih(prijave[..|prijave| - 1], korime, sada)
        + (if p.korisnickoIme == korime && p.vrijeme > sada - ProzorSekundi then 1 else 0)
  }

  /** The records of one username, in insertion order. */
  function ZapisiZa(prijave: seq<NeuspjesnaPrijava>, korime: string): (r: seq<NeuspjesnaPrijava>)
    ensures |r| <= |prijave|
    ensures forall i :: 0 <= i < |r| ==> r[i].korisnickoIme == korime && r[i] in prijave
    ensures forall i :: 0 <= i < |prijave| && prijave[i].korisnickoIme == korime ==> prijave[i] in r
  {
    if |prijave| == 0 then []
    else
      var p := prijave[|prijave| - 1];
      ZapisiZa(prijave[..|prijave| - 1], korime) + (if p.korisnickoIme == korime then [p] else [])
  }

  /** `DELETE FROM neuspjesne_prijave WHERE korisnicko_ime = ?`. */
  function Ocisti(prijave: seq<NeuspjesnaPrijava>, korime: string): (r: seq<NeuspjesnaPrijava>)
    ensures forall i :: 0 <= i < |r| ==> r[i].korisnickoIme != korime
    ensures forall i :: 0 <= i < |r| ==> r[i] in prijave
  {
    if |prijave| == 0 then []
    else
      var p := prijave[|prijave| - 1];
      Ocisti(prijave[..|prijave| - 1], korime) + (if p.korisnickoIme != korime then [p] else [])
  }

  // ---------------------------------------------------------------------
  // Lemmas: lookups

  /** Appending a row does not move an existing first match; a row for a
      new username becomes that username's match. */
  lemma {:induction false} PozicijaDodaj(redovi: seq<Korisnik>, k: Korisnik, korime: string)
    ensures Pozicija(redovi + [k], korime) ==
            if Pozicija(redovi, korime).Some? then Pozicija(redovi, korime)
            else if k.korisnickoIme == korime then Some(|redovi|)
            else None
  {
    if |redovi| > 0 {
      assert (redovi + [k])[1..] == redovi[1..] + [k];
      PozicijaDodaj(redovi[1..], k, korime);
    }
  }

  /** Lookups depend only on the username column. */
  lemma {:induction false} PozicijaPoImenima(a: seq<Korisnik>, b: seq<Korisnik>, korime: string)
    requires |a| == |b|
    requires forall i :: 0 <= i < |a| ==> a[i].korisnickoIme == b[i].korisnickoIme
    ensures Pozicija(a, korime) == Pozicija(b, korime)
  {
    if |a| > 0 {
      PozicijaPoImenima(a[1..], b[1..], korime);
    }
  }

  /** With unique usernames, the row found for a username is the only one. */
  lemma PozicijaJedinstvena(t: Tablice, korime: string, i: nat)
    requires Ispravno(t)
    requires i < |t.korisnik| && t.korisnik[i].korisnickoIme == korime
    ensures Pozicija(t.korisnik, korime) == Some(i)
  {
  }

  // ---------------------------------------------------------------------
  // Lemmas: registration

  /** An insert of a row whose username is absent keeps usernames unique
      and rowids fresh; the new row gets the next rowid. */
  lemma UmetniIspravno(t: Tablice, k: Korisnik)
    requires Ispravno(t)
    requires Redak(t.korisnik, k.korisnickoIme).None?
    ensures Ispravno(Umetni(t, k))
    ensures |Umetni(t, k).korisnik| == |t.korisnik| + 1
    ensures Umetni(t, k).korisnik[|t.korisnik|] == k.(id := t.sljedeciId)
    ensures forall i :: 0 <= i < |t.korisnik| ==> Umetni(t, k).korisnik[i].id != t.sljedeciId
  {
    var r := Umetni(t, k);
    forall i | 0 <= i < |t.korisnik|
      ensures r.korisnik[i].korisnickoIme != k.korisnickoIme
    {
      assert r.korisnik[i] == t.korisnik[i];
    }
  }

  /** Registering and then verifying with the same password yields the new
      principal; any password whose hash with that salt differs is
      rejected as "Netocna lozinka". */
  lemma {:induction false} RegistracijaPaProvjera(t: Tablice, hash: (string, string) -> string, zadanaUloga: string,
                                                   zadanoAktivan: int, korime: string, email: string, lozinka: string,
                                                   ime: string, prezime: string, datumRodenja: string, sol: string,
                                                   druga: string)
    requires !Zauzeto(t.korisnik, korime, email)
    ensures var t' := Umetni(t, Registriran(hash, zadanaUloga, zadanoAktivan, korime, email, lozinka, ime, prezime, datumRodenja, sol));
            && Provjeri(t'.korisnik, hash, korime, lozinka) == Ok(Principal(t.sljedeciId, korime, Some(email), zadanaUloga))
            && (hash(druga, sol) != hash(lozinka, sol) ==> Provjeri(t'.korisnik, hash, korime, druga) == Err(PorukaNetocna))
            && Aktivnost(t'.korisnik, korime) == Ok(zadanoAktivan == 1)
  {
    var k := Registriran(hash, zadanaUloga, zadanoAktivan, korime, email, lozinka, ime, prezime, datumRodenja, sol);
    assert forall j :: 0 <= j < |t.korisnik| ==> t.korisnik[j].korisnickoIme != korime;
    PozicijaDodaj(t.korisnik, k.(id := t.sljedeciId), korime);
  }

  // ---------------------------------------------------------------------
  // Lemmas: profile update and lock / unlock

  /** The profile UPDATE rewrites the four profile columns of the matching
      rows only; credentials, username, rowid, role and flag never change,
      and an unknown username leaves the table as it was. */
  lemma AzuriranjeCuvaVjerodajnice(redovi: seq<Korisnik>, korime: string, email: Option<string>, ime: Option<string>,
                                   prezime: Option<string>, datumRodenja: Option<string>)
    ensures var r := Azurirano(redovi, korime, email, ime, prezime, datumRodenja);
            && |r| == |redovi|
            && (forall i :: 0 <= i < |r| ==>
                  && r[i].id == redovi[i].id && r[i].korisnickoIme == redovi[i].korisnickoIme
                  && r[i].lozinka == redovi[i].lozinka && r[i].sol == redovi[i].sol
                  && r[i].uloga == redovi[i].uloga && r[i].aktivan == redovi[i].aktivan)
            && (forall i :: 0 <= i < |r| && redovi[i].korisnickoIme == korime ==>
                  r[i].email == email && r[i].ime == ime && r[i].prezime == prezime && r[i].datumRodenja == datumRodenja)
            && (forall i :: 0 <= i < |r| && redovi[i].korisnickoIme != korime ==> r[i] == redovi[i])
            && (Redak(redovi, korime).None? ==> r == redovi)
  {
  }

  /** After a profile update the same password still verifies, with the new
      email in the principal. */
  lemma AzuriranjePaProvjera(redovi: seq<Korisnik>, hash: (string, string) -> string, korime: string, lozinka: string,
                             email: Option<string>, ime: Option<string>, prezime: Option<string>, datumRodenja: Option<string>)
    ensures var r := Azurirano(redovi, korime, email, ime, prezime, datumRodenja);
            && (Provjeri(redovi, hash, korime, lozinka).Ok? <==> Provjeri(r, hash, korime, lozinka).Ok?)
            && (Provjeri(r, hash, korime, lozinka).Ok? ==> Provjeri(r, hash, korime, lozinka).value.email == email)
            && Aktivnost(r, korime) == Aktivnost(redovi, korime)
  {
    RedakAzuriran(redovi, korime, email, ime, prezime, datumRodenja);
  }

  /** The row a lookup finds after the update is the updated old row. */
  lemma RedakAzuriran(redovi: seq<Korisnik>, korime: string, email: Option<string>, ime: Option<string>,
                      prezime: Option<string>, datumRodenja: Option<string>)
    ensures Redak(Azurirano(redovi, korime, email, ime, prezime, datumRodenja), korime) ==
            match Redak(redovi, korime)
            case None => None
            case Some(k) => Some(k.(email := email, ime := ime, prezime := prezime, datumRodenja := datumRodenja))
  {
    var r := Azurirano(redovi, korime, email, ime, prezime, datumRodenja);
    assert forall i :: 0 <= i < |r| ==> r[i].korisnickoIme == redovi[i].korisnickoIme;
    PozicijaPoImenima(redovi, r, korime);
  }

  /** `zakljucajRacun`/`otkljucajRacun` set the named user's flag, so that
      `provjeriAktivnost` reports the new state for that user and the same
      as before for everybody else. */
  lemma {:induction false} PostaviAktivanUcinak(redovi: seq<Korisnik>, korime: string, aktivan: int, drugi: string)
    ensures var r := PostaviAktivan(redovi, korime, aktivan);
            && Aktivnost(r, korime) == (if Redak(redovi, korime).Some? then Ok(aktivan == 1) else Err(PorukaNePostoji))
            && (drugi != korime ==> Redak(r, drugi) == Redak(redovi, drugi))
            && (forall i :: 0 <= i < |r| && redovi[i].korisnickoIme != korime ==> r[i] == redovi[i])
            && (forall i :: 0 <= i < |r| ==> r[i] == redovi[i].(aktivan := r[i].aktivan))
            && |r| == |redovi|
  {
    var r := PostaviAktivan(redovi, korime, aktivan);
    PozicijaPoImenima(redovi, r, korime);
    PozicijaPoImenima(redovi, r, drugi);
  }

  /** Locking and unlocking change no name, rowid or password, so they keep
      the table invariant and every password check's outcome. */
  lemma {:induction false} PostaviAktivanIspravno(t: Tablice, korime: string, aktivan: int, drugi: string, lozinka: string,
                                                  hash: (string, string) -> string)
    requires Ispravno(t)
    ensures Ispravno(t.(korisnik := PostaviAktivan(t.korisnik, korime, aktivan)))
    ensures Provjeri(PostaviAktivan(t.korisnik, korime, aktivan), hash, drugi, lozinka) == Provjeri(t.korisnik, hash, drugi, lozinka)
  {
    var r := PostaviAktivan(t.korisnik, korime, aktivan);
    assert forall i :: 0 <= i < |r| ==> r[i] == t.korisnik[i].(aktivan := r[i].aktivan);
    IstiKljucevi(t, r);
    PozicijaPoImenima(t.korisnik, r, drugi);
  }

  /** A profile update changes no username or rowid, so it keeps the table
      invariant. */
  lemma AzuriranoIspravno(t: Tablice, korime: string, email: Option<string>, ime: Option<string>,
                          prezime: Option<string>, datumRodenja: Option<string>)
    requires Ispravno(t)
    ensures Ispravno(t.(korisnik := Azurirano(t.korisnik, korime, email, ime, prezime, datumRodenja)))
  {
    var r := Azurirano(t.korisnik, korime, email, ime, prezime, datumRodenja);
    assert forall i :: 0 <= i < |r| ==> r[i].korisnickoIme == t.korisnik[i].korisnickoIme && r[i].id == t.korisnik[i].id;
    IstiKljucevi(t, r);
  }

  /** The table invariant depends only on the username and rowid columns. */
  lemma IstiKljucevi(t: Tablice, r: seq<Korisnik>)
    requires Ispravno(t) && |r| == |t.korisnik|
    requires forall i :: 0 <= i < |r| ==> r[i].korisnickoIme == t.korisnik[i].korisnickoIme && r[i].id == t.korisnik[i].id
    ensures Ispravno(t.(korisnik := r))
  {
  }

  // ---------------------------------------------------------------------
  // Lemmas: seeding

  /** Seeding leaves the existing rows in place, keeps the invariant, and
      afterwards `obican` and `admin` both exist; when a username was absent
      its row is the seeded one (role, profile, the hash of "rwa" with its
      salt) with a fresh rowid. */
  lemma {:induction false} SijanjeUcinak(t: Tablice, hash: (string, string) -> string, aktivan: int, sol1: string, sol2: string)
    requires Ispravno(t)
    ensures var s := Sijanje(t, hash, aktivan, sol1, sol2);
            && Ispravno(s)
            && s.korisnik[..|t.korisnik|] == t.korisnik
            && s.neuspjesnePrijave == t.neuspjesnePrijave
            && Redak(s.korisnik, "obican").Some?
            && Redak(s.korisnik, "admin").Some?
            && (Redak(t.korisnik, "obican").None? ==>
                  Redak(s.korisnik, "obican").value == Obican(hash, sol1, aktivan).(id := t.sljedeciId))
            && (Redak(t.korisnik, "admin").None? ==>
                  Redak(s.korisnik, "admin").value == Admin(hash, sol2, aktivan).(id := Redak(s.korisnik, "admin").value.id)
                  && Redak(s.korisnik, "admin").value.id >= t.sljedeciId)
  {
    var o := Obican(hash, sol1, aktivan);
    var a := Admin(hash, sol2, aktivan);
    var t1 := if Redak(t.korisnik, "obican").None? then Umetni(t, o) else t;
    var s := Sijanje(t, hash, aktivan, sol1, sol2);
    assert o.korisnickoIme == "obican" && a.korisnickoIme == "admin";
    assert s == if Redak(t1.korisnik, "admin").None? then Umetni(t1, a) else t1;
    UmetniAkoNema(t, o, "admin");
    UmetniAkoNema(t1, a, "obican");
    if Redak(t.korisnik, "admin").None? {
      assert Redak(t1.korisnik, "admin").None?;
      var red := a.(id := t1.sljedeciId);
      assert Redak(s.korisnik, "admin") == Some(red);
      assert red == a.(id := red.id);
    }
    PrefiksPrefiksa(t.korisnik, t1.korisnik, s.korisnik);
  }

  lemma PrefiksPrefiksa(a: seq<Korisnik>, b: seq<Korisnik>, c: seq<Korisnik>)
    requires |a| <= |b| <= |c| && c[..|b|] == b && b[..|a|] == a
    ensures c[..|a|] == a
  {
    assert c[..|b|][..|a|] == c[..|a|];
  }

  /** One step of seeding: the row is inserted when its username is absent.
      The old rows stay in front, the invariant holds, the username is then
      present, and the lookup of any other username is unchanged. */
  lemma UmetniAkoNema(t: Tablice, k: Korisnik, drugi: string)
    requires Ispravno(t)
    requires drugi != k.korisnickoIme
    ensures var s := if Redak(t.korisnik, k.korisnickoIme).None? then Umetni(t, k) else t;
            && Ispravno(s)
            && |s.korisnik| >= |t.korisnik|
            && s.korisnik[..|t.korisnik|] == t.korisnik
            && s.neuspjesnePrijave == t.neuspjesnePrijave
            && s.sljedeciId >= t.sljedeciId
            && Redak(s.korisnik, k.korisnickoIme).Some?
            && (Redak(t.korisnik, k.korisnickoIme).None? ==> Redak(s.korisnik, k.korisnickoIme).value == k.(id := t.sljedeciId))
            && Redak(s.korisnik, drugi) == Redak(t.korisnik, drugi)
  {
    if Redak(t.korisnik, k.korisnickoIme).None? {
      UmetniIspravno(t, k);
      PozicijaDodaj(t.korisnik, k.(id := t.sljedeciId), k.korisnickoIme);
      PozicijaDodaj(t.korisnik, k.(id := t.sljedeciId), drugi);
      assert Umetni(t, k).korisnik[..|t.korisnik|] == t.korisnik;
    }
  }

  /** A new database file ends up holding exactly the two test accounts,
      `obican` with rowid 1 and `admin` with rowid 2. */
  lemma SijanjePrazne(hash: (string, string) -> string, aktivan: int, sol1: string, sol2: string)
    ensures Ispravno(Tablice([], 1, []))
    ensures Sijanje(Tablice([], 1, []), hash, aktivan, sol1, sol2)
            == Tablice([Obican(hash, sol1, aktivan).(id := 1), Admin(hash, sol2, aktivan).(id := 2)], 3, [])
  {
    var t1 := Umetni(Tablice([], 1, []), Obican(hash, sol1, aktivan));
    assert t1.korisnik == [Obican(hash, sol1, aktivan).(id := 1)];
    PozicijaDodaj([], Obican(hash, sol1, aktivan).(id := 1), "admin");
  }

  /** Seeding twice, with any salts, adds nothing the second time. */
  lemma SijanjeIdempotentno(t: Tablice, hash: (string, string) -> string, aktivan: int,
                            sol1: string, sol2: string, sol3: string, sol4: string)
    requires Ispravno(t)
    ensures var s := Sijanje(t, hash, aktivan, sol1, sol2);
            Sijanje(s, hash, aktivan, sol3, sol4) == s
  {
    SijanjeUcinak(t, hash, aktivan, sol1, sol2);
  }

  // ---------------------------------------------------------------------
  // Lemmas: the failed-login log

  /** Appending one record raises the user's count by one exactly when the
      record is that user's and lies inside the window. */
  lemma BrojNakonDodavanja(prijave: seq<NeuspjesnaPrijava>, p: NeuspjesnaPrijava, korime: string, sada: int)
    ensures BrojNedavnih(prijave + [p], korime, sada) ==
            BrojNedavnih(prijave, korime, sada) + (if p.korisnickoIme == korime && p.vrijeme > sada - ProzorSekundi then 1 else 0)
  {
    assert (prijave + [p])[..|prijave|] == prijave;
  }

  /** The count only looks at the user's own records. */
  lemma {:induction false} BrojSamoVlastitih(prijave: seq<NeuspjesnaPrijava>, korime: string, sada: int)
    ensures BrojNedavnih(prijave, korime, sada) == BrojNedavnih(ZapisiZa(prijave, korime), korime, sada)
    ensures BrojNedavnih(prijave, korime, sada) <= |ZapisiZa(prijave, korime)|
  {
    if |prijave| > 0 {
      var p := prijave[|prijave| - 1];
      var z := ZapisiZa(prijave[..|prijave| - 1], korime);
      BrojSamoVlastitih(prijave[..|prijave| - 1], korime, sada);
      if p.korisnickoIme == korime {
        BrojNakonDodavanja(z, p, korime, sada);
      } else {
        assert z + [] == z;
        assert ZapisiZa(prijave, korime) == z;
        assert BrojNedavnih(prijave, korime, sada) == BrojNedavnih(prijave[..|prijave| - 1], korime, sada);
      }
    }
  }

  /** When every record of the user lies inside the window, all of them
      count. */
  lemma {:induction false} BrojSviUProzoru(prijave: seq<NeuspjesnaPrijava>, korime: string, sada: int)
    requires forall i :: 0 <= i < |prijave| && prijave[i].korisnickoIme == korime ==> prijave[i].vrijeme > sada - ProzorSekundi
    ensures BrojNedavnih(prijave, korime, sada) == |ZapisiZa(prijave, korime)|
  {
    if |prijave| > 0 {
      BrojSviUProzoru(prijave[..|prijave| - 1], korime, sada);
    }
  }

  /** `ocistiNeuspjesnePrijave` removes every record of the user and leaves
      the records of every other username exactly as they were. */
  lemma {:induction false} OcistiUcinak(prijave: seq<NeuspjesnaPrijava>, korime: string, drugi: string)
    ensures ZapisiZa(Ocisti(prijave, korime), korime) == []
    ensures drugi != korime ==> ZapisiZa(Ocisti(prijave, korime), drugi) == ZapisiZa(prijave, drugi)
  {
    if |prijave| > 0 {
      var p := prijave[|prijave| - 1];
      var o := Ocisti(prijave[..|prijave| - 1], korime);
      OcistiUcinak(prijave[..|prijave| - 1], korime, drugi);
      if p.korisnickoIme != korime {
        assert Ocisti(prijave, korime) == o + [p];
        assert (o + [p])[..|o|] == o;
      } else {
        assert Ocisti(prijave, korime) == o;
      }
    }
  }

  /** After clearing, the user's count is zero at every time, and the
      counts of other users are unchanged. */
  lemma BrojNakonCiscenja(prijave: seq<NeuspjesnaPrijava>, korime: string, drugi: string, sada: int)
    ensures BrojNedavnih(Ocisti(prijave, korime), korime, sada) == 0
    ensures drugi != korime ==> BrojNedavnih(Ocisti(prijave, korime), drugi, sada) == BrojNedavnih(prijave, drugi, sada)
  {
    OcistiUcinak(prijave, korime, drugi);
    BrojSamoVlastitih(Ocisti(prijave, korime), korime, sada);
    BrojSamoVlastitih(Ocisti(prijave, korime), drugi, sada);
    BrojSamoVlastitih(prijave, drugi, sada);
  }

  // ---------------------------------------------------------------------
  // The store

  class Baza {
    /** `hashLozinka`: PBKDF2 as an uninterpreted deterministic function. */
    const hash: (string, string) -> string
    /** The schema's defaults of `uloga` and `aktivan`. */
    const zadanaUloga: string
    const zadanoAktivan: int

    var korisnik: seq<Korisnik>
    var sljedeciId: nat
    var neuspjesnePrijave: seq<NeuspjesnaPrijava>

    ghost function Stanje(): Tablice
      reads this
    {
      Tablice(korisnik, sljedeciId, neuspjesnePrijave)
    }

    ghost predicate Valid()
      reads this
    {
      Ispravno(Stanje())
    }

    /** `new Baza(putanja)`: the tables already in the database file (empty
        for a new file), then the seeding of the two test accounts that the
        schema callback starts. */
    constructor (hash: (string, string) -> string, zadanaUloga: string, zadanoAktivan: int,
                 t: Tablice, sol1: string, sol2: string)
      requires Ispravno(t)
      ensures Valid()
      ensures Stanje() == Sijanje(t, hash, zadanoAktivan, sol1, sol2)
      ensures this.hash == hash && this.zadanaUloga == zadanaUloga && this.zadanoAktivan == zadanoAktivan
    {
      this.hash := hash;
      this.zadanaUloga := zadanaUloga;
      this.zadanoAktivan := zadanoAktivan;
      korisnik := t.korisnik;
      sljedeciId := t.sljedeciId;
      neuspjesnePrijave := t.neuspjesnePrijave;
      new;
      KreirajTestneKorisnike(sol1, sol2);
    }

    /** An INSERT INTO korisnik. */
    method UmetniRed(k: Korisnik)
      requires Valid()
      requires Redak(korisnik, k.korisnickoIme).None?
      modifies this
      ensures Valid()
      ensures Stanje() == Umetni(old(Stanje()), k)
    {
      UmetniIspravno(Stanje(), k);
      korisnik := korisnik + [k.(id := sljedeciId)];
      sljedeciId := sljedeciId + 1;
    }

    method KreirajTestneKorisnike(sol1: string, sol2: string)
      requires Valid()
      modifies this
      ensures Valid()
      ensures Stanje() == Sijanje(old(Stanje()), hash, zadanoAktivan, sol1, sol2)
    {
      if Redak(korisnik, "obican").None? {
        UmetniRed(Obican(hash, sol1, zadanoAktivan));
      }
      if Redak(korisnik, "admin").None? {
        UmetniRed(Admin(hash, sol2, zadanoAktivan));
      }
    }

    method DohvatiSveKorisnike() returns (r: seq<JavniKorisnik>)
      ensures |r| == |korisnik|
      ensures forall i :: 0 <= i < |r| ==> r[i] == Javno(korisnik[i])
    {
      r := seq(|korisnik|, i requires 0 <= i < |korisnik| reads this => Javno(korisnik[i]));
    }

    method DohvatiKorisnika(korime: string) returns (r: Option<JavniKorisnik>)
      ensures r.None? <==> forall j :: 0 <= j < |korisnik| ==> korisnik[j].korisnickoIme != korime
      ensures r.Some? ==> r == Some(Javno(Redak(korisnik, korime).value))
    {
      var red := Redak(korisnik, korime);
      if red.None? {
        r := None;
      } else {
        r := Some(Javno(red.value));
      }
    }

    method RegistrirajKorisnika(korime: string, email: string, lozinka: string, ime: string, prezime: string,
                                datumRodenja: string, sol: string) returns (r: Result<nat>)
      requires Valid()
      modifies this
      ensures Valid()
      ensures Zauzeto(old(korisnik), korime, email) ==> r == Err(PorukaPostoji) && Stanje() == old(Stanje())
      ensures !Zauzeto(old(korisnik), korime, email) ==>
                && r == Ok(old(sljedeciId))
                && Stanje() == Umetni(old(Stanje()),
                     Registriran(hash, zadanaUloga, zadanoAktivan, korime, email, lozinka, ime, prezime, datumRodenja, sol))
    {
      if Zauzeto(korisnik, korime, email) {
        r := Err(PorukaPostoji);
        return;
      }
      var k := Registriran(hash, zadanaUloga, zadanoAktivan, korime, email, lozinka, ime, prezime, datumRodenja, sol);
      UmetniIspravno(Stanje(), k);
      r := Ok(sljedeciId);
      korisnik := korisnik + [k.(id := sljedeciId)];
      sljedeciId := sljedeciId + 1;
    }

    method AzurirajKorisnika(korime: string, email: Option<string>, ime: Option<string>, prezime: Option<string>,
                             datumRodenja: Option<string>)
      requires Valid()
      modifies this
      ensures Valid()
      ensures Stanje() == old(Stanje()).(korisnik := Azurirano(old(korisnik), korime, email, ime, prezime, datumRodenja))
    {
      AzuriranoIspravno(Stanje(), korime, email, ime, prezime, datumRodenja);
      korisnik := Azurirano(korisnik, korime, email, ime, prezime, datumRodenja);
    }

    method ProvjeriKorisnika(korime: string, lozinka: string) returns (r: Result<Principal>)
      ensures r == Provjeri(korisnik, hash, korime, lozinka)
      ensures Redak(korisnik, korime).None? ==> r == Err(PorukaNePostoji)
      ensures Redak(korisnik, korime).Some? && hash(lozinka, Redak(korisnik, korime).value.sol) != Redak(korisnik, korime).value.lozinka
              ==> r == Err(PorukaNetocna)
    {
      var red := Redak(korisnik, korime);
      if red.None? {
        r := Err(PorukaNePostoji);
      } else if hash(lozinka, red.value.sol) == red.value.lozinka {
        r := Ok(Principal(red.value.id, red.value.korisnickoIme, red.value.email, red.value.uloga));
      } else {
        r := Err(PorukaNetocna);
      }
    }

    method ProvjeriAktivnost(korime: string) returns (r: Result<bool>)
      ensures r == Aktivnost(korisnik, korime)
      ensures r.Err? <==> forall j :: 0 <= j < |korisnik| ==> korisnik[j].korisnickoIme != korime
    {
      var red := Redak(korisnik, korime);
      if red.None? {
        r := Err(PorukaNePostoji);
      } else {
        r := Ok(red.value.aktivan == 1);
      }
    }

    /** The record's timestamp is the schema's `CURRENT_TIMESTAMP`, passed
        in as `sada`. */
    method EvidentirajNeuspjesnuPrijavu(korime: string, ip: string, sada: int)
      requires Valid()
      modifies this
      ensures Valid()
      ensures Stanje() == old(Stanje()).(neuspjesnePrijave := old(neuspjesnePrijave) + [NeuspjesnaPrijava(korime, ip, sada)])
    {
      neuspjesnePrijave := neuspjesnePrijave + [NeuspjesnaPrijava(korime, ip, sada)];
    }

    method BrojNeuspjesnihPrijava(korime: string, sada: int) returns (broj: nat)
      ensures broj == BrojNedavnih(neuspjesnePrijave, korime, sada)
      ensures broj <= |ZapisiZa(neuspjesnePrijave, korime)|
    {
      BrojSamoVlastitih(neuspjesnePrijave, korime, sada);
      broj := BrojNedavnih(neuspjesnePrijave, korime, sada);
    }

    method ZakljucajRacun(korime: string)
      requires Valid()
      modifies this
      ensures Valid()
      ensures Stanje() == old(Stanje()).(korisnik := PostaviAktivan(old(korisnik), korime, 0))
    {
      PostaviAktivanIspravno(Stanje(), korime, 0, korime, "", hash);
      korisnik := PostaviAktivan(korisnik, korime, 0);
    }

    method OtkljucajRacun(korime: string)
      requires Valid()
      modifies this
      ensures Valid()
      ensures Stanje() == old(Stanje()).(korisnik := PostaviAktivan(old(korisnik), korime, 1))
    {
      PostaviAktivanIspravno(Stanje(), korime, 1, korime, "", hash);
      korisnik := PostaviAktivan(korisnik, korime, 1);
    }

    method OcistiNeuspjesnePrijave(korime: string)
      requires Valid()
      modifies this
      ensures Valid()
      ensures Stanje() == old(Stanje()).(neuspjesnePrijave := Ocisti(old(neuspjesnePrijave), korime))
    {
      neuspjesnePrijave := Ocisti(neuspjesnePrijave, korime);
    }
  }
}
