/** `dajPort` of src/zajednicko/esmPomocnik.ts: the server port derived from
    a user name as 3000 plus the sum of its UTF-16 code units modulo 1000. */
module EsmPomocnik {
  import opened Common

  /** The `reduce` over `split('')`: the sum of the code units. */
  function Zbroj(jedinice: seq<int>): (r: int)
    ensures (forall i :: 0 <= i < |jedinice| ==> 0 <= jedinice[i] < 0x1_0000) ==> 0 <= r <= 0xFFFF * |jedinice|
  {
    if |jedinice| == 0 then 0 else Zbroj(jedinice[..|jedinice| - 1]) + jedinice[|jedinice| - 1]
  }

  function DajPort(ldap: string): (port: int)
    ensures 3000 <= port <= 3999
  {
    3000 + Zbroj(Utf16(ldap)) % 1000
  }

  /** The code-unit sum of one character. */
  function Tezina(c: char): (r: nat)
    ensures r == Zbroj(KodneJedinice(c))
  {
    var k := KodneJedinice(c);
    assert k[..1][..0] == [];
    assert |k| == 2 ==> k[..1] == [k[0]];
    if (c as int) < 0x1_0000 then c as int
    else (0xD800 + ((c as int) - 0x1_0000) / 0x400) + (0xDC00 + ((c as int) - 0x1_0000) % 0x400)
  }

  /** The same sum taken character by character. */
  function ZbrojZnakova(s: string): (r: nat)
    ensures r <= 2 * 0xFFFF * |s|
  {
    if |s| == 0 then 0 else ZbrojZnakova(s[..|s| - 1]) + Tezina(s[|s| - 1])
  }

  lemma {:induction false} ZbrojSpoj(a: seq<int>, b: seq<int>)
    ensures Zbroj(a + b) == Zbroj(a) + Zbroj(b)
    decreases |b|
  {
    if |b| == 0 {
      assert a + b == a;
    } else {
      assert (a + b)[..|a + b| - 1] == a + b[..|b| - 1];
      ZbrojSpoj(a, b[..|b| - 1]);
    }
  }

  lemma {:induction false} ZbrojPoZnakovima(s: string)
    ensures Zbroj(Utf16(s)) == ZbrojZnakova(s)
  {
    if |s| > 0 {
      ZbrojPoZnakovima(s[..|s| - 1]);
      ZbrojSpoj(Utf16(s[..|s| - 1]), KodneJedinice(s[|s| - 1]));
      var k := KodneJedinice(s[|s| - 1]);
      assert Zbroj(k) == Tezina(s[|s| - 1]) by {
        assert k[..1][..0] == [];
        assert Zbroj(k[..1]) == k[0];
        if |k| == 2 {
          assert Zbroj(k) == k[0] + k[1];
        } else {
          assert k[..1] == k;
        }
      }
    }
  }

  lemma {:induction false} ZnakoviSpoj(a: string, b: string)
    ensures ZbrojZnakova(a + b) == ZbrojZnakova(a) + ZbrojZnakova(b)
    decreases |b|
  {
    if |b| == 0 {
      assert a + b == a;
    } else {
      assert (a + b)[..|a + b| - 1] == a + b[..|b| - 1];
      ZnakoviSpoj(a, b[..|b| - 1]);
    }
  }

  /** The sum, and so the port, does not depend on the order of the
      characters. */
  lemma {:induction false} ZnakoviPermutacija(a: string, b: string)
    requires multiset(a) == multiset(b)
    ensures ZbrojZnakova(a) == ZbrojZnakova(b)
    decreases |a|
  {
    if |a| == 0 {
      assert |b| == |multiset(b)| == 0;
    } else {
      var x := a[|a| - 1];
      var a' := a[..|a| - 1];
      assert a == a' + [x];
      assert x in multiset(b);
      var i :| 0 <= i < |b| && b[i] == x;
      var b' := b[..i] + b[i + 1..];
      assert multiset(a') == multiset(a) - multiset{x} by {
        assert multiset(a) == multiset(a') + multiset{x};
      }
      Izbaci(b, i);
      ZnakoviPermutacija(a', b');
    }
  }

  /** Taking one character out of a string takes it out of the multiset and
      its weight out of the sum. */
  lemma Izbaci(b: string, i: nat)
    requires i < |b|
    ensures multiset(b[..i] + b[i + 1..]) == multiset(b) - multiset{b[i]}
    ensures ZbrojZnakova(b) == ZbrojZnakova(b[..i] + b[i + 1..]) + Tezina(b[i])
  {
    Rastav(b, i);
    IzbaciMultiskup(b[..i], b[i], b[i + 1..]);
    IzbaciZbroj(b[..i], b[i], b[i + 1..]);
  }

  lemma Rastav(b: string, i: nat)
    requires i < |b|
    ensures b == b[..i] + [b[i]] + b[i + 1..]
  {
  }

  lemma IzbaciMultiskup(l: string, x: char, d: string)
    ensures multiset(l + d) == multiset(l + [x] + d) - multiset{x}
  {
    assert multiset(l + [x] + d) == multiset(l) + multiset{x} + multiset(d);
    assert multiset(l + d) == multiset(l) + multiset(d);
  }

  lemma IzbaciZbroj(l: string, x: char, d: string)
    ensures ZbrojZnakova(l + [x] + d) == ZbrojZnakova(l + d) + Tezina(x)
  {
    ZnakoviSpoj(l + [x], d);
    ZnakoviSpoj(l, [x]);
    ZnakoviSpoj(l, d);
    assert ZbrojZnakova([x]) == Tezina(x) by { assert [x][..0] == []; }
  }

  lemma DajPortPermutacija(a: string, b: string)
    requires multiset(a) == multiset(b)
    ensures DajPort(a) == DajPort(b)
  {
    ZbrojPoZnakovima(a);
    ZbrojPoZnakovima(b);
    ZnakoviPermutacija(a, b);
  }

  lemma DajPortPrazan()
    ensures DajPort("") == 3000
  {
  }

  /** The port the server asks for with the placeholder name it ships with. */
  lemma DajPortZadani()
    ensures DajPort("tvoj_ldap") == 3963
  {
    ZbrojZadanog();
    PortIzZbroja("tvoj_ldap", 963);
  }

  lemma PortIzZbroja(ldap: string, z: nat)
    requires ZbrojZnakova(ldap) == z
    ensures DajPort(ldap) == 3000 + z % 1000
  {
    ZbrojPoZnakovima(ldap);
  }

  /** The character sum of the placeholder name, one character at a time. */
  lemma ZbrojZadanog()
    ensures ZbrojZnakova("tvoj_ldap") == 963
  {
    var s := "";
    DodajZnak(s, 't', 0);
    s := s + ['t'];
    DodajZnak(s, 'v', 116);
    s := s + ['v'];
    DodajZnak(s, 'o', 234);
    s := s + ['o'];
    DodajZnak(s, 'j', 345);
    s := s + ['j'];
    DodajZnak(s, '_', 451);
    s := s + ['_'];
    DodajZnak(s, 'l', 546);
    s := s + ['l'];
    DodajZnak(s, 'd', 654);
    s := s + ['d'];
    DodajZnak(s, 'a', 754);
    s := s + ['a'];
    DodajZnak(s, 'p', 851);
    s := s + ['p'];
    assert s == "tvoj_ldap";
  }

  /** Appending a character below U+10000 adds its code to the sum. */
  lemma DodajZnak(s: string, c: char, z: nat)
    requires ZbrojZnakova(s) == z && (c as int) < 0x1_0000
    ensures ZbrojZnakova(s + [c]) == z + c as int
  {
    assert (s + [c])[..|s|] == s;
  }
}
