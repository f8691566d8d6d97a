/** Types shared by the store, the route handlers and the middleware, and the
    UTF-16 view of strings that JavaScript's `length`, `split('')` and
    `charCodeAt` work on. */
module Common {

  datatype Option<+T> = None | Some(value: T)

  /** A call that either yields a value or fails with an `Error` message. */
  datatype Result<+T> = Ok(value: T) | Err(poruka: string)

  /** A check that either passes or throws with a message. */
  datatype Outcome = Pass | Fail(poruka: string)

  /** The session principal `sesija.korisnik`: the snapshot
      {id, korisnicko_ime, email, uloga} taken at login. */
  datatype Principal = Principal(id: nat, korisnickoIme: string, email: Option<string>, uloga: string)

  const UlogaRegistrirani: string := "registrirani"
  const UlogaAdministrator: string := "administrator"

  /** JavaScript truthiness of an optional string body field:
      `undefined` and `""` are falsy. */
  predicate Istinit(s: Option<string>)
    ensures Istinit(s) <==> s.Some? && |Utf16(s.value)| > 0
  {
    s.Some? && s.value != ""
  }

  /** The UTF-16 code units of one Unicode scalar value. */
  function KodneJedinice(c: char): (r: seq<int>)
    ensures 1 <= |r| <= 2
    ensures forall i :: 0 <= i < |r| ==> 0 <= r[i] < 0x1_0000
    ensures |r| == 1 <==> (c as int) < 0x1_0000
    ensures (c as int) < 0x1_0000 ==> r == [c as int]
    ensures |r| == 2 ==> && 0xD800 <= r[0] < 0xDC00 <= r[1] < 0xE000
                         && 0x1_0000 + (r[0] - 0xD800) * 0x400 + (r[1] - 0xDC00) == c as int
  {
    var v := c as int;
    if v < 0x1_0000 then [v]
    else [0xD800 + (v - 0x1_0000) / 0x400, 0xDC00 + (v - 0x1_0000) % 0x400]
  }

  /** The UTF-16 encoding of a string, as JavaScript stores it: each
      character's code units in order (the singleton clause here, and
      `Utf16Spoj` for concatenation). */
  function Utf16(s: string): (r: seq<int>)
    ensures |s| <= |r| <= 2 * |s|
    ensures forall i :: 0 <= i < |r| ==> 0 <= r[i] < 0x1_0000
    ensures |s| == 1 ==> r == KodneJedinice(s[0])
  {
    if |s| == 0 then [] else Utf16(s[..|s| - 1]) + KodneJedinice(s[|s| - 1])
  }

  lemma {:induction false} Utf16Spoj(a: string, b: string)
    ensures Utf16(a + b) == Utf16(a) + Utf16(b)
    decreases |b|
  {
    if |b| == 0 {
      assert a + b == a;
    } else {
      var b' := b[..|b| - 1];
      assert (a + b)[..|a + b| - 1] == a + b';
      Utf16Spoj(a, b');
    }
  }

  /** A string made only of characters below U+10000 is as long in UTF-16
      code units as it is in characters. */
  lemma {:induction false} Utf16DuljinaBmp(s: string)
    requires forall i :: 0 <= i < |s| ==> (s[i] as int) < 0x1_0000
    ensures |Utf16(s)| == |s|
  {
    if |s| > 0 {
      Utf16DuljinaBmp(s[..|s| - 1]);
    }
  }
}
