/** The configuration file reader `Konfiguracija` of
    src/zajednicko/konfiguracija.ts: a line-oriented `key:value` parser over
    the file's content, its validator, and `daj`.

    The JavaScript string operations it relies on are written out:
    `String.prototype.trim`, `split` and `join` with a one-character
    separator, `parseInt` without a radix, and `length` in UTF-16 code
    units. */
module Konfiguracija {
  import opened Common

  // ---------------------------------------------------------------------
  // trim

  /** ECMAScript WhiteSpace and LineTerminator code points: what `trim`
      removes and what `parseInt` skips. */
  predicate Praznina(c: char)
    ensures (c as int) < 0x80 ==> (Praznina(c) <==> c == ' ' || '\t' <= c <= '\r')
    ensures Praznina(c) ==> (c as int) < 0x1_0000 && c != ':'
  {
    || c == '\t' || c == '\n' || c == '\U{000B}' || c == '\U{000C}' || c == '\r' || c == ' '
    || c == '\U{00A0}' || c == '\U{1680}' || ('\U{2000}' <= c <= '\U{200A}')
    || c == '\U{2028}' || c == '\U{2029}' || c == '\U{202F}' || c == '\U{205F}'
    || c == '\U{3000}' || c == '\U{FEFF}'
  }

  /** The length of the longest white-space prefix. */
  function VodecePraznine(s: string): (n: nat)
    ensures n <= |s|
    ensures forall i :: 0 <= i < n ==> Praznina(s[i])
    ensures n < |s| ==> !Praznina(s[n])
  {
    if |s| == 0 || !Praznina(s[0]) then 0 else 1 + VodecePraznine(s[1..])
  }

  /** The length of the longest white-space suffix. */
  function ZavrsnePraznine(s: string): (n: nat)
    ensures n <= |s|
    ensures forall i :: |s| - n <= i < |s| ==> Praznina(s[i])
    ensures n < |s| ==> !Praznina(s[|s| - 1 - n])
  {
    if |s| == 0 || !Praznina(s[|s| - 1]) then 0 else 1 + ZavrsnePraznine(s[..|s| - 1])
  }

  /** `s.trim()`: the infix left after removing leading and trailing white
      space, which neither starts nor ends with white space. */
  function Trim(s: string): (r: string)
    ensures |r| <= |s|
    ensures |r| > 0 ==> !Praznina(r[0]) && !Praznina(r[|r| - 1])
  {
    var a := VodecePraznine(s);
    var ostatak := s[a..];
    var b := a + |ostatak| - ZavrsnePraznine(ostatak);
    assert ostatak[..b - a] == s[a..b];
    s[a..b]
  }

  /** `trim` only removes characters. */
  lemma TrimIsjecak(s: string)
    ensures multiset(Trim(s)) <= multiset(s)
  {
    var a := VodecePraznine(s);
    var ostatak := s[a..];
    var b := a + |ostatak| - ZavrsnePraznine(ostatak);
    assert Trim(s) == s[a..b];
    Isjecak(s, a, b);
  }

  /** An infix of `s` holds no character more often than `s` does. */
  lemma Isjecak(s: string, a: nat, b: nat)
    requires a <= b <= |s|
    ensures multiset(s[a..b]) <= multiset(s)
  {
    assert s == s[..a] + s[a..b] + s[b..];
  }

  /** What `trim` returns: the infix left after removing the leading and
      the trailing white space, which neither starts nor ends with white
      space and is empty exactly for an all-white-space string. */
  lemma TrimZnacenje(s: string)
    ensures var r := Trim(s);
            && (exists a, b :: 0 <= a <= b <= |s| && r == s[a..b]
                               && (forall i :: 0 <= i < a ==> Praznina(s[i]))
                               && (forall i :: b <= i < |s| ==> Praznina(s[i])))
            && (|r| > 0 ==> !Praznina(r[0]) && !Praznina(r[|r| - 1]))
            && (r == "" <==> forall i :: 0 <= i < |s| ==> Praznina(s[i]))
  {
    var a := VodecePraznine(s);
    var ostatak := s[a..];
    var b := a + |ostatak| - ZavrsnePraznine(ostatak);
    assert Trim(s) == s[a..b];
  }

  // ---------------------------------------------------------------------
  // split and join

  /** `parts.join(sep)`. */
  function Join(dijelovi: seq<string>, sep: char): (r: string)
    ensures |dijelovi| >= 1 ==> dijelovi[0] <= r
    ensures |dijelovi| >= 2 ==> |dijelovi[0]| < |r| && r[|dijelovi[0]|] == sep
  {
    if |dijelovi| == 0 then ""
    else if |dijelovi| == 1 then dijelovi[0]
    else dijelovi[0] + [sep] + Join(dijelovi[1..], sep)
  }

  /** `s.split(sep)`: the maximal separator-free pieces, joined back to `s`. */
  function Split(s: string, sep: char): (r: seq<string>)
    ensures |r| >= 1
    ensures forall i :: 0 <= i < |r| ==> sep !in r[i]
    ensures Join(r, sep) == s
    decreases |s|
  {
    if |s| == 0 then [""]
    else
      var ostatak := Split(s[1..], sep);
      if s[0] == sep then
        assert s == [sep] + s[1..];
        [""] + ostatak
      else
        var r := [[s[0]] + ostatak[0]] + ostatak[1..];
        assert r[1..] == ostatak[1..];
        assert s == [s[0]] + s[1..];
        r
  }

  /** The first piece of a split is the text before the first separator;
      joining the remaining pieces gives the text after it. */
  lemma SplitPrvi(s: string, sep: char)
    ensures var d := Split(s, sep);
            && (|d| == 1 ==> d[0] == s)
            && (|d| >= 2 ==> s == d[0] + [sep] + Join(d[1..], sep))
  {
  }

  // ---------------------------------------------------------------------
  // One line

  /** The key and value of one line: the trimmed text before the first `:`
      and the trimmed rest, re-joined with `:`. */
  function Razdvoji(linija: string): (r: (string, string))
    ensures ':' !in r.0
    ensures ':' !in linija ==> r.1 == ""
  {
    var dijelovi := Split(linija, ':');
    TrimIsjecak(dijelovi[0]);
    (Trim(dijelovi[0]), Trim(Join(dijelovi[1..], ':')))
  }

  /** A line is cut at its first colon, so the value keeps any later ones. */
  lemma RazdvojiNaPrvojDvotocki(linija: string, k: nat)
    requires k < |linija| && linija[k] == ':'
    requires forall i :: 0 <= i < k ==> linija[i] != ':'
    ensures Razdvoji(linija) == (Trim(linija[..k]), Trim(linija[k + 1..]))
  {
    var d := Split(linija, ':');
    SplitPrvi(linija, ':');
    if |d| >= 2 {
      var n := |d[0]|;
      assert linija[n] == ':';
      assert k == n;
      assert linija[..k] == d[0];
      assert linija[k + 1..] == Join(d[1..], ':');
    }
  }

  /** A line without a colon is all key, with the empty value. */
  lemma RazdvojiBezDvotocke(linija: string)
    requires ':' !in linija
    ensures Razdvoji(linija) == (Trim(linija), "")
  {
    var d := Split(linija, ':');
    SplitPrvi(linija, ':');
  }

  // ---------------------------------------------------------------------
  // The whole file

  /** `.filter(l => l.trim() !== '')`. */
  function NeprazneLinije(linije: seq<string>): (r: seq<string>)
    ensures |r| <= |linije|
    ensures forall i :: 0 <= i < |r| ==> Trim(r[i]) != "" && r[i] in linije
    ensures forall i :: 0 <= i < |linije| && Trim(linije[i]) != "" ==> linije[i] in r
  {
    if |linije| == 0 then []
    else
      var prije := linije[..|linije| - 1];
      var l := linije[|linije| - 1];
      assert forall i :: 0 <= i < |prije| ==> prije[i] == linije[i];
      NeprazneLinije(prije) + (if Trim(l) != "" then [l] else [])
  }

  lemma {:induction false} NeprazneLinijeSpoj(a: seq<string>, b: seq<string>)
    ensures NeprazneLinije(a + b) == NeprazneLinije(a) + NeprazneLinije(b)
    decreases |b|
  {
    if |b| == 0 {
      assert a + b == a;
    } else {
      var b' := b[..|b| - 1];
      assert (a + b)[..|a + b| - 1] == a + b';
      NeprazneLinijeSpoj(a, b');
    }
  }

  /** A line that is not blank is kept, in its place. */
  lemma NeprazneLinijeNeprazna(a: seq<string>, l: string, b: seq<string>)
    requires Trim(l) != ""
    ensures NeprazneLinije(a + [l] + b) == NeprazneLinije(a) + [l] + NeprazneLinije(b)
  {
    NeprazneLinijeSpoj(a + [l], b);
    NeprazneLinijeSpoj(a, [l]);
    JednaLinija(l);
  }

  /** A line that is blank after trimming is ignored: removing it changes
      nothing. */
  lemma PraznaLinijaBezUcinka(a: seq<string>, linija: string, b: seq<string>)
    requires Trim(linija) == ""
    ensures NeprazneLinije(a + [linija] + b) == NeprazneLinije(a + b)
  {
    NeprazneLinijeSpoj(a + [linija], b);
    NeprazneLinijeSpoj(a, [linija]);
    NeprazneLinijeSpoj(a, b);
    JednaLinija(linija);
  }

  /** The filter on a single line. */
  lemma JednaLinija(l: string)
    ensures NeprazneLinije([l]) == if Trim(l) != "" then [l] else []
  {
    assert [l][..0] == [];
  }

  /** Assigning `this.konf[naziv] = vrijednost` on a plain object: the key
      `__proto__` sets the prototype, which a string value leaves as it is,
      so no entry appears. */
  function Postavi(m: map<string, string>, naziv: string, vrijednost: string): (r: map<string, string>)
    ensures naziv == "__proto__" ==> r == m
    ensures naziv != "__proto__" ==> naziv in r && r[naziv] == vrijednost
    ensures forall k :: k in m && k != naziv ==> k in r && r[k] == m[k]
    ensures forall k :: k in r ==> k in m || k == naziv
  {
    if naziv == "__proto__" then m else m[naziv := vrijednost]
  }

  /** The (key, value) pair of every line. */
  function Parovi(linije: seq<string>): (r: seq<(string, string)>)
    ensures |r| == |linije|
  {
    seq(|linije|, i requires 0 <= i < |linije| => Razdvoji(linije[i]))
  }

  /** Writing the pairs into the object one after the other. */
  function UpisiParove(m: map<string, string>, parovi: seq<(string, string)>): (r: map<string, string>)
    ensures m.Keys <= r.Keys
    ensures forall k :: k in r && k !in m ==> exists i :: 0 <= i < |parovi| && parovi[i].0 == k
  {
    if |parovi| == 0 then m
    else
      var par := parovi[|parovi| - 1];
      var prije := UpisiParove(m, parovi[..|parovi| - 1]);
      assert forall i :: 0 <= i < |parovi| - 1 ==> parovi[..|parovi| - 1][i] == parovi[i];
      Postavi(prije, par.0, par.1)
  }

  /** The effect of the `for` loop over the non-blank lines. */
  function Upisi(m: map<string, string>, linije: seq<string>): (r: map<string, string>)
    ensures m.Keys <= r.Keys
    ensures forall k :: k in r && k !in m ==> exists i :: 0 <= i < |linije| && Razdvoji(linije[i]).0 == k
  {
    var parovi := Parovi(linije);
    assert forall i :: 0 <= i < |linije| ==> parovi[i].0 == Razdvoji(linije[i]).0;
    UpisiParove(m, parovi)
  }

  /** When a key repeats, its last pair wins. */
  lemma {:induction false} ZadnjiPobjeduje(m: map<string, string>, parovi: seq<(string, string)>, j: nat)
    requires j < |parovi|
    requires parovi[j].0 != "__proto__"
    requires forall i :: j < i < |parovi| ==> parovi[i].0 != parovi[j].0
    ensures parovi[j].0 in UpisiParove(m, parovi)
    ensures UpisiParove(m, parovi)[parovi[j].0] == parovi[j].1
  {
    var n := |parovi| - 1;
    if j < n {
      var pocetak := parovi[..n];
      assert pocetak[j] == parovi[j];
      forall i | j < i < |pocetak| ensures pocetak[i].0 != pocetak[j].0 {
        assert pocetak[i] == parovi[i];
      }
      ZadnjiPobjeduje(m, pocetak, j);
    }
  }

  /** A key on no line keeps whatever the map held before. */
  lemma {:induction false} KljucBezLinije(m: map<string, string>, parovi: seq<(string, string)>, naziv: string)
    requires forall i :: 0 <= i < |parovi| ==> parovi[i].0 != naziv
    ensures (naziv in UpisiParove(m, parovi)) == (naziv in m)
    ensures naziv in m ==> UpisiParove(m, parovi)[naziv] == m[naziv]
  {
    if |parovi| > 0 {
      KljucBezLinije(m, parovi[..|parovi| - 1], naziv);
    }
  }

  /** The last line that carries a key decides its value in the loaded
      configuration. */
  lemma ZadnjaLinijaPobjeduje(m: map<string, string>, linije: seq<string>, j: nat)
    requires j < |linije|
    requires Razdvoji(linije[j]).0 != "__proto__"
    requires forall i :: j < i < |linije| ==> Razdvoji(linije[i]).0 != Razdvoji(linije[j]).0
    ensures Razdvoji(linije[j]).0 in Upisi(m, linije)
    ensures Upisi(m, linije)[Razdvoji(linije[j]).0] == Razdvoji(linije[j]).1
  {
    ZadnjiPobjeduje(m, Parovi(linije), j);
  }

  // ---------------------------------------------------------------------
  // parseInt

  /** The value of a digit in base 36 notation, as far as radix 16 goes. */
  function Znamenka(c: char): (r: Option<nat>)
    ensures r.Some? ==> r.value < 16
    ensures r.Some? && r.value < 10 <==> '0' <= c <= '9'
    ensures r.Some? ==> (c as int) < 0x80 && !Praznina(c) && c != '-' && c != '+' && c != 'x' && c != 'X'
  {
    if '0' <= c <= '9' then Some(c as int - '0' as int)
    else if 'a' <= c <= 'f' then Some(c as int - 'a' as int + 10)
    else if 'A' <= c <= 'F' then Some(c as int - 'A' as int + 10)
    else None
  }

  /** A digit of the radix: for radix 10 exactly `0`-`9`, for radix 16 also
      `a`-`f` and `A`-`F`. */
  predicate JeZnamenka(c: char, baza: nat)
    ensures baza == 10 ==> (JeZnamenka(c, baza) <==> '0' <= c <= '9')
    ensures baza == 16 ==> (JeZnamenka(c, baza) <==> '0' <= c <= '9' || 'a' <= c <= 'f' || 'A' <= c <= 'F')
  {
    Znamenka(c).Some? && Znamenka(c).value < baza
  }

  /** The lower-case digit of a value below 16, the inverse of `Znamenka`. */
  function ZnakZnamenke(d: nat): (c: char)
    requires d < 16
    ensures Znamenka(c) == Some(d)
  {
    if d < 10 then ('0' as int + d) as char else ('a' as int + d - 10) as char
  }

  /** The length of the longest prefix of digits in the given radix. */
  function DuljinaZnamenki(s: string, baza: nat): (n: nat)
    ensures n <= |s|
    ensures forall i :: 0 <= i < n ==> JeZnamenka(s[i], baza)
    ensures n < |s| ==> !JeZnamenka(s[n], baza)
  {
    if |s| == 0 || !JeZnamenka(s[0], baza) then 0 else 1 + DuljinaZnamenki(s[1..], baza)
  }

  function Potencija(baza: nat, n: nat): (r: nat)
  {
    if n == 0 then 1 else baza * Potencija(baza, n - 1)
  }

  /** Appending a digit to a number below `p` gives a number below `p * baza`. */
  lemma DodajZnamenku(v: nat, d: nat, p: nat, baza: nat)
    requires v < p && d < baza
    ensures 0 <= v * baza + d < p * baza
  {
    var k: nat := p - v - 1;
    assert k * baza >= 0;
    assert p * baza == v * baza + baza + k * baza;
  }

  /** The number a run of digits denotes, most significant digit first. */
  function VrijednostZnamenki(z: string, baza: nat): (r: nat)
    requires forall i :: 0 <= i < |z| ==> JeZnamenka(z[i], baza)
    ensures |z| == 1 ==> JeZnamenka(z[0], baza) && r == Znamenka(z[0]).value
  {
    if |z| == 0 then 0
    else
      var c := z[|z| - 1];
      assert JeZnamenka(c, baza);
      var v := VrijednostZnamenki(z[..|z| - 1], baza);
      assert |z| == 1 ==> v == 0;
      DodajZnamenku(v, Znamenka(c).value, v + 1, baza);
      v * baza + Znamenka(c).value
  }

  /** A run of `n` digits denotes a number below `baza` to the power `n`. */
  lemma {:induction false} VrijednostGranica(z: string, baza: nat)
    requires forall i :: 0 <= i < |z| ==> JeZnamenka(z[i], baza)
    ensures VrijednostZnamenki(z, baza) < Potencija(baza, |z|)
  {
    if |z| > 0 {
      var q := z[..|z| - 1];
      VrijednostGranica(q, baza);
      assert JeZnamenka(z[|z| - 1], baza);
      DodajZnamenku(VrijednostZnamenki(q, baza), Znamenka(z[|z| - 1]).value, Potencija(baza, |q|), baza);
    }
  }

  /** The longest leading run of digits in the given radix and its value;
      `None` (NaN) exactly when the string does not start with a digit. */
  function Znamenke(w: string, baza: nat): (r: Option<nat>)
    ensures r.None? <==> |w| == 0 || !JeZnamenka(w[0], baza)
  {
    var n := DuljinaZnamenki(w, baza);
    if n == 0 then None else Some(VrijednostZnamenki(w[..n], baza))
  }

  /** After the sign: radix 16 behind a `0x`/`0X` prefix, radix 10 otherwise. */
  function BezPredznaka(u: string): (r: Option<nat>)
    ensures |u| == 0 || !JeZnamenka(u[0], 10) ==> r.None?
    ensures |u| > 0 && '1' <= u[0] <= '9' ==> r.Some?
    ensures |u| > 0 && u[0] == '0' && (|u| == 1 || (u[1] != 'x' && u[1] != 'X')) ==> r.Some?
  {
    if |u| >= 2 && u[0] == '0' && (u[1] == 'x' || u[1] == 'X') then Znamenke(u[2..], 16)
    else Znamenke(u, 10)
  }

  /** After the white space: one optional sign. */
  function BezPraznina(t: string): (r: Option<int>)
    ensures (var u := if |t| > 0 && (t[0] == '-' || t[0] == '+') then t[1..] else t;
             |u| == 0 || !JeZnamenka(u[0], 10)) ==> r.None?
    ensures r.Some? && r.value < 0 ==> |t| > 0 && t[0] == '-'
  {
    if |t| > 0 && t[0] == '-' then
      match BezPredznaka(t[1..])
      case None => None
      case Some(v) => Some(-(v as int))
    else if |t| > 0 && t[0] == '+' then
      match BezPredznaka(t[1..])
      case None => None
      case Some(v) => Some(v)
    else
      match BezPredznaka(t)
      case None => None
      case Some(v) => Some(v)
  }

  /** `parseInt(s)`: skip white space, take one optional sign, switch to
      radix 16 after `0x`/`0X`, then read the longest run of digits; `None`
      is NaN. */
  function ParseInt(s: string): (r: Option<int>)
    ensures VodecePraznine(s) == |s| ==> r.None?
    ensures |s| > 0 && '1' <= s[0] <= '9' ==> r.Some?
    ensures (var t := s[VodecePraznine(s)..];
             var u := if |t| > 0 && (t[0] == '-' || t[0] == '+') then t[1..] else t;
             |u| == 0 || !JeZnamenka(u[0], 10)) ==> r.None?
  {
    BezPraznina(s[VodecePraznine(s)..])
  }

  /** `parseInt` of a property that may be `undefined`, which it reads as
      the string "undefined". */
  function ParseIntVrijednosti(v: Option<string>): (r: Option<int>)
    ensures v.None? ==> r.None?
  {
    ParseInt(if v.None? then "undefined" else v.value)
  }

  /** The numeral of a natural number in a radix from 2 to 16, in lower-case
      digits and without leading zeros. */
  function Zapis(n: nat, baza: nat): (r: string)
    requires 2 <= baza <= 16
    ensures |r| >= 1
    ensures forall i :: 0 <= i < |r| ==> JeZnamenka(r[i], baza)
    ensures n >= 1 ==> r[0] != '0'
  {
    Kolicnik(n, baza);
    var z := [ZnakZnamenke(n % baza)];
    if n < baza then z else Zapis(n / baza, baza) + z
  }

  /** The decimal numeral. */
  function Dekadski(n: nat): (r: string)
    ensures |r| >= 1
    ensures forall i :: 0 <= i < |r| ==> '0' <= r[i] <= '9'
    ensures n >= 1 ==> r[0] != '0'
  {
    Zapis(n, 10)
  }

  /** The digits of a numeral read back as its number. */
  lemma {:induction false} VrijednostZapisa(n: nat, baza: nat)
    requires 2 <= baza <= 16
    ensures VrijednostZnamenki(Zapis(n, baza), baza) == n
  {
    Kolicnik(n, baza);
    var d := Zapis(n, baza);
    var c := ZnakZnamenke(n % baza);
    if n >= baza {
      var k := n / baza;
      var q := Zapis(k, baza);
      assert d == q + [c];
      VrijednostZapisa(k, baza);
      VrijednostDodaj(q, c, baza);
      assert VrijednostZnamenki(d, baza) == k * baza + n % baza;
    } else {
      assert d == [c];
    }
  }

  /** Euclidean division by a radix. */
  lemma Kolicnik(n: nat, baza: nat)
    requires 2 <= baza
    ensures n == (n / baza) * baza + n % baza && n % baza < baza
    ensures n < baza ==> n / baza == 0 && n % baza == n
    ensures n >= baza ==> 1 <= n / baza < n
  {
    var k := n / baza;
    var m := n % baza;
    assert n == k * baza + m && 0 <= m < baza;
    if n >= baza {
      var j: nat := baza - 2;
      assert k * baza == 2 * k + j * k;
      assert j * k >= 0;
    }
  }

  /** One more digit multiplies the value by the radix and adds the digit. */
  lemma VrijednostDodaj(q: string, c: char, baza: nat)
    requires forall i :: 0 <= i < |q| ==> JeZnamenka(q[i], baza)
    requires JeZnamenka(c, baza)
    ensures forall i :: 0 <= i < |q + [c]| ==> JeZnamenka((q + [c])[i], baza)
    ensures VrijednostZnamenki(q + [c], baza) == VrijednostZnamenki(q, baza) * baza + Znamenka(c).value
  {
    var z := q + [c];
    assert z[..|z| - 1] == q;
    assert z[|z| - 1] == c;
  }

  lemma VrijednostDekadskog(n: nat)
    ensures forall i :: 0 <= i < |Dekadski(n)| ==> JeZnamenka(Dekadski(n)[i], 10)
    ensures VrijednostZnamenki(Dekadski(n), 10) == n
  {
    VrijednostZapisa(n, 10);
  }

  /** `parseInt` reads back every decimal numeral, also after leading white
      space, and also when something other than a digit follows (but not
      `x`/`X` after the numeral `0`, which selects radix 16). */
  lemma ParseIntDekadski(n: nat, prefiks: string, sufiks: string)
    requires forall i :: 0 <= i < |prefiks| ==> Praznina(prefiks[i])
    requires |sufiks| > 0 ==> !JeZnamenka(sufiks[0], 10) && (n == 0 ==> sufiks[0] != 'x' && sufiks[0] != 'X')
    ensures ParseInt(prefiks + Dekadski(n) + sufiks) == Some(n)
  {
    var u := Dekadski(n) + sufiks;
    assert prefiks + Dekadski(n) + sufiks == prefiks + u;
    BezPredznakaDekadski(n, sufiks);
    ParseIntNakonPraznina(prefiks, u);
  }

  /** The same behind a minus sign. */
  lemma ParseIntNegativni(n: nat, prefiks: string, sufiks: string)
    requires forall i :: 0 <= i < |prefiks| ==> Praznina(prefiks[i])
    requires |sufiks| > 0 ==> !JeZnamenka(sufiks[0], 10) && (n == 0 ==> sufiks[0] != 'x' && sufiks[0] != 'X')
    ensures ParseInt(prefiks + "-" + Dekadski(n) + sufiks) == Some(-(n as int))
  {
    var t := "-" + (Dekadski(n) + sufiks);
    NegativniDekadski(n, sufiks);
    ParseIntNakonPraznina(prefiks, t);
    SpojCetiri(prefiks, "-", Dekadski(n), sufiks);
  }

  /** `parseInt` reads a numeral behind `0x` or `0X` in radix 16, also after
      leading white space and before a tail that is not a hex digit. */
  lemma ParseIntHeksadekadski(n: nat, prefiks: string, x: char, sufiks: string)
    requires forall i :: 0 <= i < |prefiks| ==> Praznina(prefiks[i])
    requires x == 'x' || x == 'X'
    requires |sufiks| > 0 ==> !JeZnamenka(sufiks[0], 16)
    ensures ParseInt(prefiks + ['0', x] + Zapis(n, 16) + sufiks) == Some(n)
  {
    var h := Zapis(n, 16);
    var u := ['0', x] + (h + sufiks);
    SpojCetiri(prefiks, ['0', x], h, sufiks);
    HeksBezPredznaka(n, x, sufiks);
    ParseIntNakonPraznina(prefiks, u);
  }

  lemma HeksBezPredznaka(n: nat, x: char, sufiks: string)
    requires x == 'x' || x == 'X'
    requires |sufiks| > 0 ==> !JeZnamenka(sufiks[0], 16)
    ensures BezPraznina(['0', x] + (Zapis(n, 16) + sufiks)) == Some(n)
    ensures !Praznina((['0', x] + (Zapis(n, 16) + sufiks))[0])
  {
    var h := Zapis(n, 16);
    var w := h + sufiks;
    var u := ['0', x] + w;
    assert u[0] == '0' && u[1] == x && u[2..] == w;
    assert BezPredznaka(u) == Znamenke(w, 16);
    DuljinaZnamenkiPrefiksa(h, sufiks, 16);
    assert w[..|h|] == h;
    VrijednostZapisa(n, 16);
  }

  lemma SpojCetiri(a: string, b: string, c: string, d: string)
    ensures a + b + c + d == a + (b + (c + d))
  {
  }

  lemma NegativniDekadski(n: nat, sufiks: string)
    requires |sufiks| > 0 ==> !JeZnamenka(sufiks[0], 10) && (n == 0 ==> sufiks[0] != 'x' && sufiks[0] != 'X')
    ensures BezPraznina("-" + (Dekadski(n) + sufiks)) == Some(-(n as int))
    ensures !Praznina(("-" + (Dekadski(n) + sufiks))[0])
  {
    BezPredznakaDekadski(n, sufiks);
    Minus(Dekadski(n) + sufiks);
  }

  /** A leading minus negates what the rest reads as. */
  lemma Minus(u: string)
    ensures BezPraznina("-" + u) == (match BezPredznaka(u) case None => None case Some(v) => Some(-(v as int)))
  {
    assert ("-" + u)[1..] == u;
  }

  /** `parseInt` skips leading white space. */
  lemma ParseIntNakonPraznina(prefiks: string, t: string)
    requires forall i :: 0 <= i < |prefiks| ==> Praznina(prefiks[i])
    requires |t| > 0 ==> !Praznina(t[0])
    ensures ParseInt(prefiks + t) == BezPraznina(t)
  {
    PrefiksPraznina(prefiks, t);
    assert (prefiks + t)[|prefiks|..] == t;
  }

  lemma BezPredznakaDekadski(n: nat, sufiks: string)
    requires |sufiks| > 0 ==> !JeZnamenka(sufiks[0], 10) && (n == 0 ==> sufiks[0] != 'x' && sufiks[0] != 'X')
    ensures BezPredznaka(Dekadski(n) + sufiks) == Some(n)
    ensures BezPraznina(Dekadski(n) + sufiks) == Some(n)
    ensures !Praznina((Dekadski(n) + sufiks)[0])
  {
    var d := Dekadski(n);
    var u := d + sufiks;
    assert u[0] == d[0];
    if n == 0 {
      assert d == ['0'];
      if |sufiks| > 0 { assert u[1] == sufiks[0]; }
    }
    VrijednostDekadskog(n);
    DuljinaZnamenkiPrefiksa(d, sufiks, 10);
    assert u[..|d|] == d;
  }

  lemma {:induction false} PrefiksPraznina(a: string, b: string)
    requires forall i :: 0 <= i < |a| ==> Praznina(a[i])
    requires |b| > 0 ==> !Praznina(b[0])
    ensures VodecePraznine(a + b) == |a|
  {
    if |a| > 0 {
      assert (a + b)[1..] == a[1..] + b;
      PrefiksPraznina(a[1..], b);
    }
  }

  lemma {:induction false} DuljinaZnamenkiPrefiksa(z: string, ostatak: string, baza: nat)
    requires forall i :: 0 <= i < |z| ==> JeZnamenka(z[i], baza)
    requires |ostatak| > 0 ==> !JeZnamenka(ostatak[0], baza)
    ensures DuljinaZnamenki(z + ostatak, baza) == |z|
  {
    if |z| > 0 {
      assert (z + ostatak)[1..] == z[1..] + ostatak;
      DuljinaZnamenkiPrefiksa(z[1..], ostatak, baza);
    }
  }

  // ---------------------------------------------------------------------
  // validiraj

  const ZadanaBaza: string := "podaci/baza.sqlite"

  const GreskaTajniKljuc: string := "tajniKljucSesija mora biti između 75 i 100 znakova"
  const GreskaStranicenje: string := "appStranicenje mora biti broj između 5 i 20"
  const GreskaTrajanje: string := "trajanjeSesije mora biti broj između 5 i 30"
  const GreskaNeuspjesne: string := "neuspjesnePrijave mora biti broj između 3 i 10"
  const GreskaTmdb: string := "tmdbApiKeyV3 je obavezan"

  /** Reading `this.konf[naziv]`: `None` is `undefined`. */
  function Vrijednost(m: map<string, string>, naziv: string): (r: Option<string>)
    ensures r.Some? <==> naziv in m
    ensures r.Some? ==> r.value == m[naziv]
  {
    if naziv in m then Some(m[naziv]) else None
  }

  /** The length `.length` reports: UTF-16 code units. */
  function Utf16Duljina(s: string): (r: nat)
    ensures |s| <= r <= 2 * |s|
  {
    |Utf16(s)|
  }

  /** `isNaN(x) || x < lo || x > hi` is false. */
  predicate URasponu(x: Option<int>, lo: int, hi: int)
    ensures !URasponu(x, lo, hi) <==> x.None? || x.value < lo || x.value > hi
  {
    x.Some? && lo <= x.value <= hi
  }

  /** The session secret is present and 75 to 100 code units long. */
  predicate KljucIspravan(m: map<string, string>)
    ensures KljucIspravan(m) ==> "tajniKljucSesija" in m && 38 <= |m["tajniKljucSesija"]| <= 100
  {
    Istinit(Vrijednost(m, "tajniKljucSesija")) && 75 <= Utf16Duljina(m["tajniKljucSesija"]) <= 100
  }

  /** A configuration `validiraj` accepts. */
  predicate Ispravna(m: map<string, string>)
    ensures Ispravna(m) ==> && "tajniKljucSesija" in m && "appStranicenje" in m && "trajanjeSesije" in m
                            && "neuspjesnePrijave" in m && "tmdbApiKeyV3" in m
  {
    && KljucIspravan(m)
    && URasponu(ParseIntVrijednosti(Vrijednost(m, "appStranicenje")), 5, 20)
    && URasponu(ParseIntVrijednosti(Vrijednost(m, "trajanjeSesije")), 5, 30)
    && URasponu(ParseIntVrijednosti(Vrijednost(m, "neuspjesnePrijave")), 3, 10)
    && Istinit(Vrijednost(m, "tmdbApiKeyV3"))
  }

  /** The message of the first check that fails, in the order the validator
      runs them. */
  function PrvaGreska(m: map<string, string>): (r: Option<string>)
    ensures r.None? <==> Ispravna(m)
    ensures !KljucIspravan(m) ==> r == Some(GreskaTajniKljuc)
    ensures KljucIspravan(m) && !URasponu(ParseIntVrijednosti(Vrijednost(m, "appStranicenje")), 5, 20)
            ==> r == Some(GreskaStranicenje)
    ensures && KljucIspravan(m) && URasponu(ParseIntVrijednosti(Vrijednost(m, "appStranicenje")), 5, 20)
            && !URasponu(ParseIntVrijednosti(Vrijednost(m, "trajanjeSesije")), 5, 30)
            ==> r == Some(GreskaTrajanje)
    ensures && KljucIspravan(m) && URasponu(ParseIntVrijednosti(Vrijednost(m, "appStranicenje")), 5, 20)
            && URasponu(ParseIntVrijednosti(Vrijednost(m, "trajanjeSesije")), 5, 30)
            && !URasponu(ParseIntVrijednosti(Vrijednost(m, "neuspjesnePrijave")), 3, 10)
            ==> r == Some(GreskaNeuspjesne)
    ensures && KljucIspravan(m) && URasponu(ParseIntVrijednosti(Vrijednost(m, "appStranicenje")), 5, 20)
            && URasponu(ParseIntVrijednosti(Vrijednost(m, "trajanjeSesije")), 5, 30)
            && URasponu(ParseIntVrijednosti(Vrijednost(m, "neuspjesnePrijave")), 3, 10)
            && !Istinit(Vrijednost(m, "tmdbApiKeyV3"))
            ==> r == Some(GreskaTmdb)
  {
    var kljuc := Vrijednost(m, "tajniKljucSesija");
    if !Istinit(kljuc) || Utf16Duljina(kljuc.value) < 75 || Utf16Duljina(kljuc.value) > 100 then Some(GreskaTajniKljuc)
    else if !URasponu(ParseIntVrijednosti(Vrijednost(m, "appStranicenje")), 5, 20) then Some(GreskaStranicenje)
    else if !URasponu(ParseIntVrijednosti(Vrijednost(m, "trajanjeSesije")), 5, 30) then Some(GreskaTrajanje)
    else if !URasponu(ParseIntVrijednosti(Vrijednost(m, "neuspjesnePrijave")), 3, 10) then Some(GreskaNeuspjesne)
    else if !Istinit(Vrijednost(m, "tmdbApiKeyV3")) then Some(GreskaTmdb)
    else None
  }

  /** The default database path, filled in when `bazaPodataka` is missing
      or empty. */
  function SaZadanom(m: map<string, string>): (r: map<string, string>)
    ensures Istinit(Vrijednost(r, "bazaPodataka"))
    ensures r.Keys == m.Keys + {"bazaPodataka"}
    ensures forall k :: k in m && k != "bazaPodataka" ==> r[k] == m[k]
    ensures Istinit(Vrijednost(m, "bazaPodataka")) ==> r == m
  {
    if !Istinit(Vrijednost(m, "bazaPodataka")) then m["bazaPodataka" := ZadanaBaza] else m
  }

  /** After a successful validation every value the rest of the program
      reads is present and in range, the database path is non-empty, and
      only `bazaPodataka` may have changed (and only if it was empty). */
  lemma ValidacijaJamci(m: map<string, string>)
    requires PrvaGreska(m).None?
    ensures var m' := SaZadanom(m);
            && Ispravna(m')
            && Istinit(Vrijednost(m', "bazaPodataka"))
            && (Istinit(Vrijednost(m, "bazaPodataka")) ==> m' == m)
            && (forall k :: k in m && k != "bazaPodataka" ==> k in m' && m'[k] == m[k])
            && m'.Keys == m.Keys + {"bazaPodataka"}
            && SaZadanom(m') == m'
  {
    var m' := SaZadanom(m);
    assert Vrijednost(m', "tajniKljucSesija") == Vrijednost(m, "tajniKljucSesija");
    assert Vrijednost(m', "appStranicenje") == Vrijednost(m, "appStranicenje");
    assert Vrijednost(m', "trajanjeSesije") == Vrijednost(m, "trajanjeSesije");
    assert Vrijednost(m', "neuspjesnePrijave") == Vrijednost(m, "neuspjesnePrijave");
    assert Vrijednost(m', "tmdbApiKeyV3") == Vrijednost(m, "tmdbApiKeyV3");
  }

  /** One more line of the loop: its pair is written over the map the
      earlier lines left. */
  lemma UpisiJednu(m: map<string, string>, linije: seq<string>, i: nat)
    requires i < |linije|
    ensures UpisiParove(m, Parovi(linije[..i + 1]))
            == Postavi(UpisiParove(m, Parovi(linije[..i])), Razdvoji(linije[i]).0, Razdvoji(linije[i]).1)
  {
    var p := Parovi(linije[..i + 1]);
    assert p[..i] == Parovi(linije[..i]);
  }

  // ---------------------------------------------------------------------
  // The class

  class Konfiguracija {
    var konf: map<string, string>

    constructor ()
      ensures konf == map[]
    {
      konf := map[];
    }

    /** Parse the file's content into `konf`, then validate.  The entries
        are written before validation, so a failed validation leaves them. */
    method UcitajKonfiguraciju(sadrzaj: string) returns (r: Outcome)
      modifies this
      ensures var upisano := Upisi(old(konf), NeprazneLinije(Split(sadrzaj, '\n')));
              && (r.Pass? <==> Ispravna(upisano))
              && (r.Fail? ==> Some(r.poruka) == PrvaGreska(upisano) && konf == upisano)
              && (r.Pass? ==> konf == SaZadanom(upisano))
    {
      var linije := NeprazneLinije(Split(sadrzaj, '\n'));
      ghost var pocetno := konf;
      for i := 0 to |linije|
        invariant konf == UpisiParove(pocetno, Parovi(linije[..i]))
      {
        var dijelovi := Split(linije[i], ':');
        var naziv := Trim(dijelovi[0]);
        var vrijednost := Trim(Join(dijelovi[1..], ':'));
        UpisiJednu(pocetno, linije, i);
        if naziv != "__proto__" {
          konf := konf[naziv := vrijednost];
        }
      }
      assert linije[..|linije|] == linije;
      ghost var upisano := Upisi(pocetno, linije);
      assert konf == upisano;
      r := Validiraj();
    }

    method Validiraj() returns (r: Outcome)
      modifies this
      ensures r.Pass? <==> Ispravna(old(konf))
      ensures r.Fail? ==> Some(r.poruka) == PrvaGreska(old(konf)) && konf == old(konf)
      ensures r.Pass? ==> konf == SaZadanom(old(konf))
    {
      var tajniKljuc := Vrijednost(konf, "tajniKljucSesija");
      if !Istinit(tajniKljuc) || Utf16Duljina(tajniKljuc.value) < 75 || Utf16Duljina(tajniKljuc.value) > 100 {
        assert !KljucIspravan(konf);
        assert PrvaGreska(konf) == Some(GreskaTajniKljuc);
        return Fail(GreskaTajniKljuc);
      }
      assert KljucIspravan(konf);
      var stranicenje := ParseIntVrijednosti(Vrijednost(konf, "appStranicenje"));
      if stranicenje.None? || stranicenje.value < 5 || stranicenje.value > 20 {
        assert !URasponu(stranicenje, 5, 20);
        assert PrvaGreska(konf) == Some(GreskaStranicenje);
        return Fail(GreskaStranicenje);
      }
      assert URasponu(stranicenje, 5, 20);
      var trajanje := ParseIntVrijednosti(Vrijednost(konf, "trajanjeSesije"));
      if trajanje.None? || trajanje.value < 5 || trajanje.value > 30 {
        assert !URasponu(trajanje, 5, 30);
        assert PrvaGreska(konf) == Some(GreskaTrajanje);
        return Fail(GreskaTrajanje);
      }
      assert URasponu(trajanje, 5, 30);
      var neuspjesne := ParseIntVrijednosti(Vrijednost(konf, "neuspjesnePrijave"));
      if neuspjesne.None? || neuspjesne.value < 3 || neuspjesne.value > 10 {
        assert !URasponu(neuspjesne, 3, 10);
        assert PrvaGreska(konf) == Some(GreskaNeuspjesne);
        return Fail(GreskaNeuspjesne);
      }
      if !Istinit(Vrijednost(konf, "tmdbApiKeyV3")) {
        assert PrvaGreska(konf) == Some(GreskaTmdb);
        return Fail(GreskaTmdb);
      }
      assert Ispravna(konf);
      if !Istinit(Vrijednost(konf, "bazaPodataka")) {
        konf := konf["bazaPodataka" := ZadanaBaza];
      }
      r := Pass;
    }

    /** `this.konf[naziv]`, without changing anything. */
    function Daj(naziv: string): (r: Option<string>)
      reads this
      ensures r.Some? <==> naziv in konf
      ensures r.Some? ==> r.value == konf[naziv]
    {
      Vrijednost(konf, naziv)
    }
  }
}
