# Accounts, login lockout and helpers of rest-tmdb-project, in Dafny

This project models the account and login subsystem of a small Express
backend, plus the helpers around it.

- **User store and failed-login log** (`baza.dfy`): class `Baza`, with its
  two SQLite tables `korisnik` and `neuspjesne_prijave` held in memory.
- **REST handlers** (`autentifikacija.dfy`): GET user(s), registration,
  profile update, login with lockout, logout and the session check.
- **Role-gate middleware** (`autorizacija.dfy`).
- **Configuration file reader and validator** (`konfiguracija.dfy`).
- **TMDB re-pagination** (`tmdb.dfy`).
- **Port derivation** (`esm_pomocnik.dfy`).
- **Shared types** (`common.dfy`): the session principal, and the UTF-16
  view of strings that JavaScript's `length`, `split('')` and `charCodeAt`
  use.

Each SQL statement is a pure function on the table contents (`Tablice`).
Each method of `Baza` is proved to change its fields exactly as that
function says, and to keep the table invariant `Ispravno`:

- usernames are unique;
- rowids strictly increase;
- every rowid is below the next one.

A handler that writes the store or the session is a method. It is proved
equal to a pure function of the old store and session, such as
`PrijavaSpec` for login. The login and lockout properties are lemmas about
that function:

- the branches of the login;
- a run of wrong passwords locks the account at the configured threshold;
- a locked account refuses even the right password.

The configuration loader is a `for` loop over the non-blank lines. It is
proved to produce the map of a fold, and three properties of that fold
are proved:

- a line splits at its first colon;
- the last occurrence of a key wins;
- blank lines have no effect.

Modelling choices:

- PBKDF2 is a deterministic uninterpreted function, `Baza.hash`.
- The random salts, the clock (`sada`, in seconds) and the client address
  are parameters.
- The schema's defaults for `uloga` and `aktivan` are given to the
  constructor. The SQL file that holds them is not part of this model.
- The source's callbacks run one after another.
- The rows already in the database file are given to the `Baza`
  constructor as tables meeting the invariant. The constructor then seeds
  the two test accounts, as the schema callback does.
- Roles are the plain strings `registrirani` and `administrator` that the
  seed rows (baza.ts:33, 45) and the route role lists store and compare.
- The role and active flag of a new user come from the schema's defaults,
  because the INSERT at baza.ts:106-111 does not name those columns.
- Email uniqueness is checked only on registration (baza.ts:92-94). The
  profile update writes any email, so uniqueness is not part of the table
  invariant.
- A login for an absent user answers "Racun je zakljucan", the same as
  for a locked account, because the login handler answers an error of the
  activity check and an inactive account in one branch
  (autentifikacija.ts:95-99).

## Model

| member | source | states |
|---|---|---|
| Common.KodneJedinice | src/zajednicko/esmPomocnik.ts:2 | a character below U+10000 is the single code unit equal to its code point; above it, a high surrogate (D800-DBFF) and a low surrogate (DC00-DFFF) that decode back to the code point; every unit is below 0x10000 |
| Common.Utf16 | src/zajednicko/konfiguracija.ts:27 | a string's UTF-16 encoding has one or two code units per character, each below 0x10000, and a one-character string encodes to that character's code units (with `Utf16Spoj`, the encoding is each character's units in order) |
| Common.Utf16Spoj | src/zajednicko/esmPomocnik.ts:2 | the encoding of a concatenation is the concatenation of the encodings |
| Common.Utf16DuljinaBmp | src/zajednicko/konfiguracija.ts:27 | a string with no character above U+FFFF has a UTF-16 `length` equal to its count of characters |
| Common.Istinit | src/servis/autentifikacija.ts:38 | JavaScript truthiness of a string that may be `undefined`: true exactly when it is present and its UTF-16 `length` is not 0 |
| Baza.Pozicija | src/zajednicko/baza.ts:146-148 | `db.get` yields the first row in rowid order with that username; there is none exactly when no row carries it |
| Baza.Redak | src/zajednicko/baza.ts:69-81 | the row found carries the username and is in the table; none exactly when no row carries the username |
| Baza.Ispravno | src/zajednicko/baza.ts:92-111 | the table invariant the rowid and the username lookups keep: no two rows share a username, and no two share a rowid |
| Baza.Obican | src/zajednicko/baza.ts:28-33 | the seeded account `obican` has the role `registrirani`, the given salt and flag, and the password `rwa` checks against its stored hash to its principal |
| Baza.Admin | src/zajednicko/baza.ts:40-45 | the seeded account `admin` has the role `administrator`, the given salt and flag, and the password `rwa` checks against its stored hash to its principal |
| Baza.Javno | src/zajednicko/baza.ts:60 | the public record carries the row's rowid, username and email |
| Baza.JavnoStupci | src/zajednicko/baza.ts:70-71 | the selected column list drops exactly the hash and the salt: two rows have the same public record exactly when they agree on every other column |
| Baza.Registriran | src/zajednicko/baza.ts:106-111 | the inserted row has the username, email and salt given; its password checks against the stored hash to the principal with the default role, the activity check reads the default flag, and its public record holds the submitted fields |
| Baza.Zauzeto | src/zajednicko/baza.ts:92-94 | a username that the lookup finds always makes the registration query find a row |
| Baza.Provjeri | src/zajednicko/baza.ts:155-171 | "Korisnik ne postoji" exactly when no row has the username; when the salted hash of the password equals the stored hash, the principal (id, username, email, role) of the found row; otherwise "Netocna lozinka" |
| Baza.Aktivnost | src/zajednicko/baza.ts:176-183 | an error exactly when no row has the username, and then "Korisnik ne postoji"; otherwise `true` exactly when the found row has `aktivan` 1 |
| Baza.Umetni | src/zajednicko/baza.ts:109-111 | the INSERT keeps the old rows in front and appends exactly the given row with the next rowid; the next rowid grows and the log is untouched |
| Baza.PostaviAktivan | src/zajednicko/baza.ts:210-220 | the same rows in the same order, differing at most in `aktivan`, which is the new flag exactly on that username's rows |
| Baza.Azurirano | src/zajednicko/baza.ts:132-134 | the same number of rows with the same usernames, and the rows of other usernames unchanged |
| Baza.Sijanje | src/zajednicko/baza.ts:25-49 | the old rows stay a prefix and the log is unchanged, and afterwards the lookups of `obican` and `admin` both find a row |
| Baza.BrojNedavnih | src/zajednicko/baza.ts:196-208 | the count of failures in the window never exceeds the number of records |
| Baza.ZapisiZa | src/zajednicko/baza.ts:198 | the `korisnicko_ime = ?` filter keeps exactly that username's records: each kept record is the user's and was in the log, and every record of the user is kept |
| Baza.Ocisti | src/zajednicko/baza.ts:222-226 | the DELETE leaves no record of the username and keeps only records that were there |
| Baza.PozicijaDodaj | src/zajednicko/baza.ts:109-111 | appending a row keeps an existing first match; a row with a new username becomes that username's match |
| Baza.PozicijaPoImenima | src/zajednicko/baza.ts:132-134 | lookups depend only on the username column, so UPDATEs of other columns do not move them |
| Baza.PozicijaJedinstvena | src/zajednicko/baza.ts:146-148 | under the table invariant, a lookup finds the one row with that username |
| Baza.UmetniIspravno | src/zajednicko/baza.ts:109-117 | inserting a row for a new username keeps the invariant, appends exactly one row, and gives it the next rowid, which no earlier row has |
| Baza.RegistracijaPaProvjera | src/zajednicko/baza.ts:106-117 | after registration the same password verifies to the principal {new rowid, username, email, default role}; a password whose hash with that salt differs gets "Netocna lozinka"; the activity read gives the default flag == 1 |
| Baza.AzuriranjeCuvaVjerodajnice | src/zajednicko/baza.ts:132-134 | the profile UPDATE sets the four profile columns of the matching rows; rowid, username, hash, salt, role and flag never change; other rows and an unknown username leave the table as it was |
| Baza.AzuriranjePaProvjera | src/zajednicko/baza.ts:132-134 | after a profile update the same password verifies (with the new email in the principal) exactly when it did before, and the activity read is unchanged |
| Baza.PostaviAktivanUcinak | src/zajednicko/baza.ts:210-220 | lock or unlock makes the activity read report the new flag for that user (still an error for an absent user); every other user's row and lookup are unchanged; only `aktivan` differs |
| Baza.AzuriranoIspravno | src/zajednicko/baza.ts:124-139 | a profile update keeps the table invariant |
| Baza.RedakAzuriran | src/zajednicko/baza.ts:124-139 | the row found for the updated username after the update is the old row with the four profile fields replaced; absent stays absent |
| Baza.PostaviAktivanIspravno | src/zajednicko/baza.ts:210-220 | lock or unlock keeps the table invariant and every password check's outcome |
| Baza.SijanjeUcinak | src/zajednicko/baza.ts:25-49 | seeding keeps the existing rows as a prefix, the failure log and the invariant; afterwards `obican` and `admin` exist; an absent `obican` becomes the `registrirani` test row (the hash of "rwa" with its salt, its profile) with the next rowid, an absent `admin` the `administrator` test row with a rowid not below it |
| Baza.UmetniAkoNema | src/zajednicko/baza.ts:26-47 | one seeding step, an insert guarded by a lookup: old rows stay in front, the invariant holds, the username is then present, a fresh row gets the next rowid, and the lookup of any other username is unchanged |
| Baza.SijanjeIdempotentno | src/zajednicko/baza.ts:25-49 | seeding a seeded store changes nothing, so running it twice adds no duplicate |
| Baza.SijanjePrazne | src/zajednicko/baza.ts:13-49 | seeding a new, empty database gives exactly the two test rows: `obican` with rowid 1 and `admin` with rowid 2, the next rowid 3, no failures |
| Baza.BrojNakonDodavanja | src/zajednicko/baza.ts:186-208 | appending one record raises a username's count by one exactly when the record is that user's and inside the window |
| Baza.BrojSamoVlastitih | src/zajednicko/baza.ts:196-208 | the count depends only on the username's own records and is at most their number |
| Baza.BrojSviUProzoru | src/zajednicko/baza.ts:196-208 | when all of a username's records are later than now minus 30 minutes, the count is their number |
| Baza.OcistiUcinak | src/zajednicko/baza.ts:222-226 | after clearing a username, it has no records, and every other username keeps exactly its records |
| Baza.BrojNakonCiscenja | src/zajednicko/baza.ts:222-226 | after clearing, the username's count is 0 at any time, and every other username's count is unchanged |
| Baza.Baza.constructor | src/zajednicko/baza.ts:8-23 | the store opened on the database file's tables (any tables meeting the invariant; empty for a new file), after the schema callback has seeded the two test accounts: the seeding function of those tables, with the given hash function and schema defaults |
| Baza.Baza.UmetniRed | src/zajednicko/baza.ts:31-34 | an INSERT of a row for an absent username is the model's insert and keeps the invariant |
| Baza.Baza.KreirajTestneKorisnike | src/zajednicko/baza.ts:25-49 | the store afterwards is the seeding function of the store before, with the given salts |
| Baza.Baza.DohvatiSveKorisnike | src/zajednicko/baza.ts:59-67 | one public record (no hash, no salt) per row, in rowid order |
| Baza.Baza.DohvatiKorisnika | src/zajednicko/baza.ts:69-81 | nothing exactly when no row has the username; otherwise the public columns of its first row |
| Baza.Baza.RegistrirajKorisnika | src/zajednicko/baza.ts:83-122 | a taken username or email fails with "Korisnicko ime ili email vec postoji" and leaves both tables; otherwise it inserts the hashed, salted row and returns its rowid |
| Baza.Baza.AzurirajKorisnika | src/zajednicko/baza.ts:124-139 | the user table becomes the profile UPDATE of the old one; the log is untouched; no error |
| Baza.Baza.ProvjeriKorisnika | src/zajednicko/baza.ts:141-174 | unknown username gives "Korisnik ne postoji", a hash mismatch gives "Netocna lozinka", otherwise the principal {id, korisnicko_ime, email, uloga} |
| Baza.Baza.ProvjeriAktivnost | src/zajednicko/baza.ts:176-184 | an error exactly for an absent user, otherwise `aktivan == 1` |
| Baza.Baza.EvidentirajNeuspjesnuPrijavu | src/zajednicko/baza.ts:186-194 | appends exactly one record (username, address, now) and changes nothing else |
| Baza.Baza.BrojNeuspjesnihPrijava | src/zajednicko/baza.ts:196-208 | the number of that username's records later than now minus 30 minutes, at most its number of records |
| Baza.Baza.ZakljucajRacun | src/zajednicko/baza.ts:210-214 | sets that user's flag to 0 and changes nothing else |
| Baza.Baza.OtkljucajRacun | src/zajednicko/baza.ts:216-220 | sets that user's flag to 1 and changes nothing else |
| Baza.Baza.OcistiNeuspjesnePrijave | src/zajednicko/baza.ts:222-226 | the log becomes the DELETE of that username's records; the user table is unchanged |
| Konfiguracija.VodecePraznine | src/zajednicko/konfiguracija.ts:13 | the longest all-white-space prefix: every character before it is white space, the next is not |
| Konfiguracija.Praznina | src/zajednicko/konfiguracija.ts:13 | the white space `trim` and `parseInt` skip: below U+0080 exactly space and tab to carriage return; every such character is a single UTF-16 code unit and none is a colon |
| Konfiguracija.ZavrsnePraznine | src/zajednicko/konfiguracija.ts:13 | the longest all-white-space suffix, bounded in the same way |
| Konfiguracija.Trim | src/zajednicko/konfiguracija.ts:17-18 | `trim` is no longer than its input and neither starts nor ends with white space |
| Konfiguracija.TrimIsjecak | src/zajednicko/konfiguracija.ts:17-18 | `trim` only removes characters: the result holds no character more often than the input |
| Konfiguracija.TrimZnacenje | src/zajednicko/konfiguracija.ts:17-18 | `trim` yields the infix between white-space-only ends, which neither starts nor ends with white space, and is empty exactly for an all-white-space string |
| Konfiguracija.Join | src/zajednicko/konfiguracija.ts:18 | `join` starts with the first piece and, when there are more, puts the separator right after it |
| Konfiguracija.Split | src/zajednicko/konfiguracija.ts:16 | `split` gives at least one piece, no piece contains the separator, and joining the pieces with it gives back the input |
| Konfiguracija.SplitPrvi | src/zajednicko/konfiguracija.ts:16-18 | with one piece it is the whole string; otherwise the string is the first piece, the separator, and the rest joined |
| Konfiguracija.Razdvoji | src/zajednicko/konfiguracija.ts:16-18 | the key of a line never contains a colon, and a line without a colon has the empty value |
| Konfiguracija.RazdvojiNaPrvojDvotocki | src/zajednicko/konfiguracija.ts:16-18 | a line is cut at its first colon: key is the trimmed text before it, value the trimmed text after it, later colons included |
| Konfiguracija.RazdvojiBezDvotocke | src/zajednicko/konfiguracija.ts:16-18 | a line without a colon is the trimmed key with the empty value |
| Konfiguracija.NeprazneLinije | src/zajednicko/konfiguracija.ts:13 | every kept line is an input line that is non-blank after trimming, and every non-blank input line is kept |
| Konfiguracija.NeprazneLinijeSpoj | src/zajednicko/konfiguracija.ts:13 | the blank-line filter distributes over concatenation |
| Konfiguracija.PraznaLinijaBezUcinka | src/zajednicko/konfiguracija.ts:13 | inserting a blank line anywhere changes nothing |
| Konfiguracija.NeprazneLinijeNeprazna | src/zajednicko/konfiguracija.ts:13 | a non-blank line is kept, in its place between the filtered lines before and after it |
| Konfiguracija.JednaLinija | src/zajednicko/konfiguracija.ts:13 | a single line is kept exactly when it is non-blank |
| Konfiguracija.Parovi | src/zajednicko/konfiguracija.ts:15-18 | one (key, value) pair per line |
| Konfiguracija.Postavi | src/zajednicko/konfiguracija.ts:19 | assigning to `__proto__` leaves the object as it was; any other key then holds the value; no other key changes or appears |
| Konfiguracija.UpisiParove | src/zajednicko/konfiguracija.ts:15-19 | writing pairs never removes a key, and every key it adds is the key of one of the pairs |
| Konfiguracija.Upisi | src/zajednicko/konfiguracija.ts:15-19 | loading lines never removes a key, and every key it adds is the key of one of the lines |
| Konfiguracija.UpisiJednu | src/zajednicko/konfiguracija.ts:15-19 | one more line writes its pair over the object the earlier lines left |
| Konfiguracija.ZadnjiPobjeduje | src/zajednicko/konfiguracija.ts:15-19 | a key whose pair is not followed by another pair with the same key ends up with that pair's value |
| Konfiguracija.KljucBezLinije | src/zajednicko/konfiguracija.ts:15-19 | a key on no line keeps its presence and value from before |
| Konfiguracija.ZadnjaLinijaPobjeduje | src/zajednicko/konfiguracija.ts:19 | for repeated keys, the last line carrying the key decides its value |
| Konfiguracija.DuljinaZnamenki | src/zajednicko/konfiguracija.ts:31 | the longest digit run in the radix: all digits, followed by a non-digit or the end |
| Konfiguracija.Znamenka | src/zajednicko/konfiguracija.ts:31 | a digit's value is below 16; the value is below 10 exactly for `0`-`9`; a digit is ASCII and is neither white space, a sign nor `x`/`X` |
| Konfiguracija.JeZnamenka | src/zajednicko/konfiguracija.ts:31 | a digit of radix 10 is exactly `0`-`9`; a digit of radix 16 is `0`-`9`, `a`-`f` or `A`-`F` |
| Konfiguracija.ZnakZnamenke | src/zajednicko/konfiguracija.ts:31 | the digit character of each value below 16 reads back as that value |
| Konfiguracija.VrijednostZnamenki | src/zajednicko/konfiguracija.ts:31 | a single digit denotes its own value |
| Konfiguracija.VrijednostGranica | src/zajednicko/konfiguracija.ts:31 | a run of n digits denotes a number below the radix to the power n |
| Konfiguracija.VrijednostDodaj | src/zajednicko/konfiguracija.ts:31 | one more digit multiplies the value by the radix and adds the digit |
| Konfiguracija.Znamenke | src/zajednicko/konfiguracija.ts:31 | the digit stage is NaN exactly when the text does not start with a digit of the radix |
| Konfiguracija.BezPredznaka | src/zajednicko/konfiguracija.ts:31 | after the sign: NaN when no decimal digit starts the text; a number when it starts with 1-9, or with `0` not followed by `x`/`X` |
| Konfiguracija.BezPraznina | src/zajednicko/konfiguracija.ts:31 | after the white space: NaN when no decimal digit follows the optional sign, and a negative result only behind `-` |
| Konfiguracija.ParseInt | src/zajednicko/konfiguracija.ts:31-42 | `parseInt` is NaN for a blank string and whenever no decimal digit follows the white space and the optional sign (`"abc"`, `"-"`, `"+x"`, `"- 5"`); a string starting with a digit 1 to 9 is a number |
| Konfiguracija.ParseIntVrijednosti | src/servis/autentifikacija.ts:94 | `parseInt(undefined)` is NaN |
| Konfiguracija.Dekadski | src/zajednicko/konfiguracija.ts:31 | the decimal numeral of a natural number: non-empty, all digits `0`-`9`, no leading zero |
| Konfiguracija.Zapis | src/zajednicko/konfiguracija.ts:31 | the numeral of a natural number in a radix from 2 to 16: non-empty, all digits of the radix, no leading zero |
| Konfiguracija.VrijednostZapisa | src/zajednicko/konfiguracija.ts:31 | a numeral's digits read back as its number, in every radix from 2 to 16 |
| Konfiguracija.VrijednostDekadskog | src/zajednicko/konfiguracija.ts:31 | the digits of a numeral read back as the number |
| Konfiguracija.BezPredznakaDekadski | src/zajednicko/konfiguracija.ts:31 | an unsigned decimal numeral followed by a non-digit parses to its number (for the numeral `0`, a following `x`/`X` selects radix 16 instead) |
| Konfiguracija.Minus | src/zajednicko/konfiguracija.ts:31 | a leading minus negates what the rest parses to |
| Konfiguracija.ParseIntNakonPraznina | src/zajednicko/konfiguracija.ts:31 | `parseInt` skips leading white space |
| Konfiguracija.PrefiksPraznina | src/zajednicko/konfiguracija.ts:31 | the white-space prefix of a white-space string followed by a non-white-space start is that string |
| Konfiguracija.DuljinaZnamenkiPrefiksa | src/zajednicko/konfiguracija.ts:31 | the digit run of digits followed by a non-digit is the digits |
| Konfiguracija.ParseIntDekadski | src/zajednicko/konfiguracija.ts:31 | `parseInt` of white space, a decimal numeral and a tail that is not a digit (nor `x`/`X` after the numeral `0`) returns the number |
| Konfiguracija.ParseIntNegativni | src/zajednicko/konfiguracija.ts:31 | the same behind a minus sign returns the negated number |
| Konfiguracija.NegativniDekadski | src/zajednicko/konfiguracija.ts:31 | after the white space, a minus sign and a decimal numeral parse to the negated number, and the sign is not white space |
| Konfiguracija.ParseIntHeksadekadski | src/zajednicko/konfiguracija.ts:31 | `parseInt` of white space, `0x` or `0X`, a hexadecimal numeral and a tail that is no hex digit returns the number (so `0x10` reads 16) |
| Konfiguracija.HeksBezPredznaka | src/zajednicko/konfiguracija.ts:31 | after the white space, `0x`/`0X` and a hexadecimal numeral parse to its number, and `0` is not white space |
| Konfiguracija.Vrijednost | src/zajednicko/konfiguracija.ts:55-57 | present exactly for a stored key, and then its stored value |
| Konfiguracija.Utf16Duljina | src/zajednicko/konfiguracija.ts:27 | `length` counts between one and two UTF-16 code units per character |
| Konfiguracija.URasponu | src/zajednicko/konfiguracija.ts:32 | a value fails the range check exactly when it is NaN, below the bound or above the bound |
| Konfiguracija.KljucIspravan | src/zajednicko/konfiguracija.ts:26-28 | a secret that passes is present and, since `length` counts one or two UTF-16 units per character, 38 to 100 characters long |
| Konfiguracija.Ispravna | src/zajednicko/konfiguracija.ts:25-48 | a configuration that validates has all five required keys |
| Konfiguracija.SaZadanom | src/zajednicko/konfiguracija.ts:50-52 | afterwards the database path is non-empty; `bazaPodataka` is the only key that may be added, every other value is unchanged, and a non-empty path is kept |
| Konfiguracija.PrvaGreska | src/zajednicko/konfiguracija.ts:25-48 | none exactly when every check passes; otherwise the message of the first failing check in the validator's order: the secret's length, then `appStranicenje`, `trajanjeSesije`, `neuspjesnePrijave`, then `tmdbApiKeyV3` |
| Konfiguracija.ValidacijaJamci | src/zajednicko/konfiguracija.ts:25-52 | after a passing validation the checks still pass, the database path is non-empty, only `bazaPodataka` may have been added (the default, if it was missing or empty), and repeating the default step changes nothing |
| Konfiguracija.Konfiguracija.constructor | src/zajednicko/konfiguracija.ts:5 | an empty configuration |
| Konfiguracija.Konfiguracija.UcitajKonfiguraciju | src/zajednicko/konfiguracija.ts:7-23 | the loop writes the fold of the non-blank lines' pairs into the map; loading passes exactly when that map validates, fails with the first check's message keeping the written entries, and on success fills the default path |
| Konfiguracija.Konfiguracija.Validiraj | src/zajednicko/konfiguracija.ts:25-53 | passes exactly for a valid map; a failure carries the first failing check's message and changes nothing; a pass only fills the default path |
| Konfiguracija.Konfiguracija.Daj | src/zajednicko/konfiguracija.ts:55-57 | the stored value for the key, absent when there is none; it reads and changes nothing |
| Autentifikacija.Sesija.constructor | src/server.ts:28-33 | the session the middleware creates for a request has no principal |
| Autentifikacija.PopisKorisnika | src/servis/autentifikacija.ts:9-17 | 200 with one public record per row, in order |
| Autentifikacija.KorisnikPoImenu | src/servis/autentifikacija.ts:19-33 | 404 "Korisnik ne postoji" exactly when no row has the username, otherwise 200 with the public columns of a row that has it |
| Autentifikacija.ProvjeraSesije | src/servis/autentifikacija.ts:145-158 | `prijavljen` is true exactly when the session holds a principal, which is reported |
| Autentifikacija.PoljaRegistracije | src/servis/autentifikacija.ts:38-41 | the registration passes the guard exactly when all six fields are truthy, otherwise 400 "Sva polja su obavezna" |
| Autentifikacija.DozvolaAzuriranja | src/servis/autentifikacija.ts:64-72 | no principal gives 401, a principal that is neither the target nor an administrator gives 403, and the update goes ahead exactly in the remaining case |
| Autentifikacija.DozvolaOdjave | src/servis/autentifikacija.ts:131-134 | logout passes exactly when a principal exists and its username is the route's, otherwise 401 "Niste prijavljeni" |
| Autentifikacija.RegistracijaSpec | src/servis/autentifikacija.ts:35-58 | the reply is 201 or 400, a 400 leaves the store as it was, and the failed-login log never changes |
| Autentifikacija.RegistracijaIshod | src/servis/autentifikacija.ts:35-58 | 201 exactly when all fields are present and username and email are free; otherwise 400 with the store untouched; on 201 one row is appended with the next rowid, the salted hash and the salt, and GET for the username returns its public data |
| Autentifikacija.Registracija | src/servis/autentifikacija.ts:35-58 | the handler's reply and new store are those of the registration function |
| Autentifikacija.AzurirajProfil | src/servis/autentifikacija.ts:60-83 | a refused guard returns its reply and leaves the store; otherwise the profile UPDATE is applied and the reply is 201 "Korisnik azuriran" |
| Autentifikacija.AzuriranjeNeDiraPrijavu | src/servis/autentifikacija.ts:64-76 | an update the guard allows needs a principal, rewrites no row but the principal's own unless the principal is an administrator, and leaves the target's activity read and password outcome as they were |
| Autentifikacija.Odjava | src/servis/autentifikacija.ts:127-143 | a refused guard gives 401 and keeps the session; otherwise the principal is gone and the reply is 201 "Uspjesna odjava" |
| Autentifikacija.IpAdresa | src/servis/autentifikacija.ts:104 | the recorded address is non-empty exactly when the request has one, and is then that address |
| Autentifikacija.Pogresna | src/zajednicko/baza.ts:159-170 | a wrong password is one that is given and for which the password check of the found user answers "Netocna lozinka" |
| Autentifikacija.Premasen | src/servis/autentifikacija.ts:107 | a NaN threshold never locks; a threshold m of at least 1 locks exactly at a count of m or more; a lower threshold locks at any non-zero count |
| Autentifikacija.PrijavaSpec | src/servis/autentifikacija.ts:85-125 | the reply is 201, 400 or 401; the session changes only on 201, and then holds the principal of the requested username; no user row is added or removed and the next rowid is unchanged |
| Autentifikacija.Prijava | src/servis/autentifikacija.ts:85-125 | the handler's reply, new store and new session principal are those of the login function, with the threshold `parseInt` of the configured `neuspjesnePrijave` |
| Autentifikacija.PrijavaBezLozinke | src/servis/autentifikacija.ts:89-92 | a missing or empty password answers 400 and changes neither store nor session |
| Autentifikacija.ZakljucanRacunOdbija | src/servis/autentifikacija.ts:96-100 | an absent or inactive account answers 401 "Racun je zakljucan" with nothing changed and no failure recorded, whatever the password |
| Autentifikacija.PogresnaLozinka | src/servis/autentifikacija.ts:102-113 | a wrong password appends one record and raises the count by one; it locks the account with "zbog previse pokusaja" exactly when the new count reaches the threshold, else answers "Netocna lozinka" with the users unchanged; the session is untouched |
| Autentifikacija.IspravnaLozinka | src/servis/autentifikacija.ts:117-122 | the right password answers 201 with the principal, puts it in the session, leaves the users unchanged and clears only this user's failures |
| Autentifikacija.RegistracijaPaPrijava | src/servis/autentifikacija.ts:85-125 | a freshly registered user, with an active default flag, logs in with their password and gets their principal |
| Autentifikacija.NizPrijava | src/servis/autentifikacija.ts:85-125 | a run of logins gives one reply per attempt |
| Autentifikacija.Zapisi | src/servis/autentifikacija.ts:104 | one failure record per attempt |
| Autentifikacija.BrojBezZapisa | src/zajednicko/baza.ts:196-208 | records of other users and records at least 30 minutes old do not count: a log holding only those has count 0 |
| Autentifikacija.BrojZapisa | src/zajednicko/baza.ts:196-208 | a log whose records of the user are all outside the window, followed by k failures of the user inside it, has count k |
| Autentifikacija.Zakljucavanje | src/servis/autentifikacija.ts:102-113 | up to m wrong passwords, all inside one 30-minute window, on an active account whose recorded failures are all at least 30 minutes older than the window's start: the session is untouched, the replies are "Netocna lozinka" until the m-th, which answers "zbog previse pokusaja"; each attempt leaves one record, and the user rows change (the account locked) exactly when the run reaches m |
| Autentifikacija.NizJedanKorak | src/servis/autentifikacija.ts:85-125 | a run one attempt longer is the shorter run followed by one login on the state it left |
| Autentifikacija.KorakNiza | src/servis/autentifikacija.ts:102-113 | the induction step of the lockout: one more wrong password after k < m of them extends the replies, the records and the lock state as the lockout states |
| Autentifikacija.ProduzeniNiz | src/servis/autentifikacija.ts:102-113 | when a run of k < m failures ends as the lockout states, so does the run one failure longer |
| Autentifikacija.OdgovoriNizaKorak | src/servis/autentifikacija.ts:107-113 | one more failure adds "zbog previse pokusaja" when it is the m-th and "Netocna lozinka" otherwise |
| Autentifikacija.KorakPrijave | src/servis/autentifikacija.ts:102-113 | the (k+1)-th wrong password on the store the first k left appends its record, answers "zbog previse pokusaja" and locks exactly when k + 1 = m, and else answers "Netocna lozinka" with the users unchanged |
| Autentifikacija.BrojUNizu | src/servis/autentifikacija.ts:102-107 | before the (k+1)-th attempt of such a run the password is wrong and the count is k: the earlier records lie outside the window and the run's own inside it |
| Autentifikacija.Zastarjeli | src/zajednicko/baza.ts:196-208 | a record outside the window before one instant stays outside it at any later instant |
| Autentifikacija.ZadnjiUNizu | src/zajednicko/baza.ts:196-208 | inside one 30-minute window every earlier attempt is younger than 30 minutes at the time of the last one, so the count sees them all |
| Autentifikacija.ZakljucanNakonNiza | src/servis/autentifikacija.ts:96-113 | after m such failures (one 30-minute window, earlier failures older than it) the last reply is "zbog previse pokusaja", the flag reads inactive, and any further login, even with the right password, is refused as locked with nothing changed |
| Autentifikacija.ProvjerenPrag | src/servis/autentifikacija.ts:94 | with a configuration that validates, the threshold parses to a number from 3 to 10 |
| Autorizacija.ZahtijevaPrijavu | src/zajednicko/autorizacija.ts:3-12 | redirect to `/prijava` without a principal, pass exactly with one |
| Autorizacija.ZahtijevaUlogu | src/zajednicko/autorizacija.ts:14-30 | redirect without a principal whatever the roles, 403 with `public/403.html` for a role not listed, pass exactly for a principal with a listed role |
| Autorizacija.Monotonost | src/zajednicko/autorizacija.ts:23 | allowing more roles never turns a pass into a refusal, nor a redirect into a 403 |
| Autorizacija.UlogaTraziPrijavu | src/zajednicko/autorizacija.ts:18-21 | what a role gate passes the login gate passes, and what the login gate refuses the role gate refuses the same way |
| Autorizacija.RuteAplikacije | src/aplikacija/aplikacija.ts:33-43 | `registrirani` may open `/detalji` and `/gledano` but gets 403 on `/korisnici`; `administrator` may open all three; any other role gets 403 everywhere |
| Tmdb.Strop | src/servis/tmdb.ts:26 | no results give 0 pages, a positive count at least 1 page, and a negative count at most 0 |
| Tmdb.Min | src/servis/tmdb.ts:27 | the number of results `slice(0, n)` keeps: the smaller of the two, no larger than either |
| Tmdb.StropGranice | src/servis/tmdb.ts:26 | the ceiling k of x over n satisfies (k-1)·n < x ≤ k·n |
| Tmdb.StropJedinstven | src/servis/tmdb.ts:26 | only the ceiling satisfies those bounds |
| Tmdb.PrilagodiStranicenje | src/servis/tmdb.ts:22-35 | results are the prefix of length min(count, page size), hence at most the page size; `page` and `total_results` are copied; `total_pages·size` just covers a positive total, and a zero total has zero pages |
| Tmdb.PrilagodiStranicenjeStrop | src/servis/tmdb.ts:26-27 | the page count is the ceiling of total over page size; a reply that fits one page keeps all its results |
| Tmdb.StranicenjePozitivno | src/servis/servis.ts:11 | with a configuration that validates, the page size parses to a number from 5 to 20 |
| EsmPomocnik.DajPort | src/zajednicko/esmPomocnik.ts:1-4 | the port lies in 3000..3999 |
| EsmPomocnik.Zbroj | src/zajednicko/esmPomocnik.ts:2 | the sum of k code units, each below 0x10000, lies between 0 and 0xFFFF·k |
| EsmPomocnik.Tezina | src/zajednicko/esmPomocnik.ts:2 | a character's weight is the sum of its UTF-16 code units |
| EsmPomocnik.ZbrojZnakova | src/zajednicko/esmPomocnik.ts:2 | the per-character sum is at most 2·0xFFFF per character |
| EsmPomocnik.ZbrojSpoj | src/zajednicko/esmPomocnik.ts:2 | the code-unit sum of a concatenation is the sum of the sums |
| EsmPomocnik.ZbrojPoZnakovima | src/zajednicko/esmPomocnik.ts:2 | the sum over UTF-16 code units equals the sum of each character's code units |
| EsmPomocnik.ZnakoviSpoj | src/zajednicko/esmPomocnik.ts:2 | the per-character sum of a concatenation is the sum of the sums |
| EsmPomocnik.Izbaci | src/zajednicko/esmPomocnik.ts:2 | taking one character out of a string takes it out of the multiset and its weight out of the sum |
| EsmPomocnik.ZnakoviPermutacija | src/zajednicko/esmPomocnik.ts:2 | strings with the same characters, in any order, have the same sum |
| EsmPomocnik.DajPortPermutacija | src/zajednicko/esmPomocnik.ts:2-3 | the port does not depend on the order of the characters |
| EsmPomocnik.DajPortPrazan | src/zajednicko/esmPomocnik.ts:2-3 | the empty name gives port 3000 |
| EsmPomocnik.DajPortZadani | src/server.ts:72 | the shipped placeholder name `tvoj_ldap` gives port 3963 |
| EsmPomocnik.PortIzZbroja | src/zajednicko/esmPomocnik.ts:1-4 | a name whose per-character sum is z gets port 3000 + z mod 1000 |
| EsmPomocnik.ZbrojZadanog | src/server.ts:72 | the per-character sum of `tvoj_ldap` is 963 |
| EsmPomocnik.DodajZnak | src/zajednicko/esmPomocnik.ts:2 | appending a character below U+10000 adds its code to the per-character sum |

## Left out

- SQLite itself, the schema file `dokumentacija/baza.sql` and `zatvori`/`db.close`: the tables are sequences in memory.
- Opening the database file and reading its persisted rows: the rows are a constructor argument.
- Storage errors: every statement succeeds, so the 500 replies of the GET routes and the error callbacks of the store are not modelled.
- The schema's constraints beyond usernames and rowids (a UNIQUE email constraint, column types), since the schema file is not part of this model.
- `hashLozinka` and `generirajSol`: PBKDF2 is an uninterpreted deterministic function and salts are arguments. Nothing is claimed about hash collisions or salt freshness.
- The clock: `CURRENT_TIMESTAMP` and `datetime('now')` are one integer time in seconds, passed in as `sada`. SQLite's text datetime comparison is therefore not modelled.
- Callback interleaving: the failure insert, the lock and the clean-up are not awaited in the source. The model runs them in order (record, count, lock) before the reply, so concurrent logins that interleave are not modelled. The seeding's two lookups and inserts also run in order.
- Express routing, JSON encoding, static files and the session library's cookie and expiry. The session is one object with an optional principal.
- Autentifikacija.Odjava: a failing `session.destroy` (the 500 "Greska pri odjavi" reply) is not modelled, because the session library is outside the model.
- JSON body values that are not strings. A body field is either absent or a string.
- Konfiguracija.Konfiguracija.Daj: keys inherited from `Object.prototype` (such as `toString`) are not modelled. The configuration object holds only its own entries.
- Reading the configuration file (`fs.existsSync`, `readFileSync` and the missing-file error): the loader takes the file's content as a string.
- The thrown errors of `validiraj` are a failing result that carries the message.
- src/server.ts (startup, command-line arguments, `process.exit`), src/servis/servis.ts and `TMDBServis.pretraziSerije` (network fetch, the two-character query guard), and the constructor of `TMDBServis`.
- Tmdb.PrilagodiStranicenje: requires a positive page size. The caller passes the validated `appStranicenje` (5 to 20, see `Tmdb.StranicenjePozitivno`), so JavaScript's division by zero and `slice` with a negative end are not modelled. Floating-point `Math.ceil` is integer ceiling division.
- Baza.BrojNedavnih: the function's own contract only bounds the count. The window semantics are stated by `Baza.BrojNakonDodavanja`, `Baza.BrojSviUProzoru` and `Baza.BrojSamoVlastitih`.
- Autentifikacija.NizPrijava: the function's own contract states only the number of replies. The lockout behaviour of a run is stated by `Autentifikacija.Zakljucavanje`.
- Konfiguracija.Parovi: its own contract states only the number of pairs. The content of each pair is stated by `Konfiguracija.RazdvojiNaPrvojDvotocki` and `Konfiguracija.RazdvojiBezDvotocke`.
- Roles are plain strings, not an enumeration, as in the source's table.
