/**
 * The axioms of module Crypto are consistent: concrete (deliberately naive and
 * insecure) stand-ins for bcrypt and jsonwebtoken satisfy them, so no lemma that
 * assumes them holds vacuously.
 */
module CryptoWitness {
  import opened Wrappers
  import opened Crypto

  /** A password "hash" that is just the password behind a marker. */
  lemma BcryptAxiomsConsistent()
    ensures exists b :: BcryptAxioms(b)
  {
    var b := Bcrypt((p, rounds, salt) => "$" + p, (q, h) => h == "$" + q);
    forall p, q, rounds, salt | p != q ensures !b.compare(q, b.hash(p, rounds, salt)) {
      assert ("$" + p)[1..] == p && ("$" + q)[1..] == q;
    }
    assert BcryptAxioms(b);
  }

  /** One character as a two-character block that never contains a space. */
  function Block(x: char): string {
    if x == ' ' then "bb" else ['a', x]
  }

  /** A string as its blocks followed by the terminator 'c'. */
  function Encode(s: string): (e: string)
    ensures e != [] && ' ' !in e
    ensures e[0] == 'c' <==> s == []
  {
    if s == [] then "c" else Block(s[0]) + Encode(s[1..])
  }

  /** An encoding can be read back off the front of a longer string. */
  lemma {:induction false} EncodePrefix(a: string, b: string, r1: string, r2: string)
    requires Encode(a) + r1 == Encode(b) + r2
    ensures a == b && r1 == r2
    decreases |a|
  {
    if a == [] {
      assert (Encode(b) + r2)[0] == 'c';
      assert "c" + r1 == "c" + r2;
      assert r1 == ("c" + r1)[1..];
    } else {
      assert (Encode(a) + r1)[0] != 'c';
      assert b != [];
      assert Encode(a) + r1 == Block(a[0]) + (Encode(a[1..]) + r1);
      assert Encode(b) + r2 == Block(b[0]) + (Encode(b[1..]) + r2);
      assert Block(a[0]) == (Encode(a) + r1)[..2] == Block(b[0]);
      assert a[0] == b[0];
      assert Encode(a[1..]) + r1 == (Encode(a) + r1)[2..] == Encode(b[1..]) + r2;
      EncodePrefix(a[1..], b[1..], r1, r2);
      assert a == [a[0]] + a[1..] && b == [b[0]] + b[1..];
    }
  }

  function Unary(n: nat): (s: string)
    ensures |s| == n
  {
    seq(n, _ => 'x')
  }

  function IntText(i: int): (s: string)
    ensures s != []
  {
    if i >= 0 then "p" + Unary(i) else "m" + Unary(-i)
  }

  lemma IntTextInjective(i: int, j: int)
    requires IntText(i) == IntText(j)
    ensures i == j
  {
    assert IntText(i)[0] == IntText(j)[0];
    assert |IntText(i)| == |IntText(j)|;
  }

  /** A "token" that spells out its claims, key and expiry. */
  function Token(c: Claims, key: string, exp: int): string {
    Encode(Unary(c.userId)) + (Encode(c.email) + (Encode(key) + Encode(IntText(exp))))
  }

  lemma TokenInjective(c1: Claims, k1: string, e1: int, c2: Claims, k2: string, e2: int)
    requires Token(c1, k1, e1) == Token(c2, k2, e2)
    ensures c1 == c2 && k1 == k2 && e1 == e2
  {
    var x1, x2 := Encode(IntText(e1)), Encode(IntText(e2));
    var y1, y2 := Encode(k1) + x1, Encode(k2) + x2;
    var z1, z2 := Encode(c1.email) + y1, Encode(c2.email) + y2;
    EncodePrefix(Unary(c1.userId), Unary(c2.userId), z1, z2);
    EncodePrefix(c1.email, c2.email, y1, y2);
    EncodePrefix(k1, k2, x1, x2);
    assert x1 + [] == x1 && x2 + [] == x2;
    EncodePrefix(IntText(e1), IntText(e2), [], []);
    IntTextInjective(e1, e2);
  }

  /** Reads a token back, if it is one. */
  ghost function Decode(t: string): (r: Option<(Claims, string, int)>)
    ensures r.Some? ==> t == Token(r.value.0, r.value.1, r.value.2)
    ensures r.None? ==> forall c, k, e :: t != Token(c, k, e)
  {
    if exists c, k, e :: t == Token(c, k, e) then
      var c, k, e :| t == Token(c, k, e);
      Some((c, k, e))
    else None
  }

  ghost function Check(t: string, key: string, now: int): Verified {
    match Decode(t)
    case None => Invalid(Malformed)
    case Some((c, k, e)) =>
      if k != key then Invalid(BadSignature) else if now < e then Valid(c) else Invalid(Expired)
  }

  lemma JwtAxiomsConsistent()
    ensures exists j :: JwtAxioms(j)
  {
    var j := Jwt((c, key, exp) => Token(c, key, exp), (t, key, now) => Check(t, key, now));
    forall c, key, exp ensures Decode(Token(c, key, exp)) == Some((c, key, exp)) {
      var d := Decode(Token(c, key, exp));
      assert d.Some?;
      TokenInjective(d.value.0, d.value.1, d.value.2, c, key, exp);
    }
    forall c, key, exp ensures Compact(j.sign(c, key, exp)) {
      assert ' ' !in Encode(Unary(c.userId)) && ' ' !in Encode(c.email);
      assert ' ' !in Encode(key) && ' ' !in Encode(IntText(exp));
    }
    forall t, key, now | j.verify(t, key, now).Valid?
      ensures exists exp :: now < exp && t == j.sign(j.verify(t, key, now).claims, key, exp)
    {
      var e := Decode(t).value.2;
      assert now < e && t == j.sign(j.verify(t, key, now).claims, key, e);
    }
    assert JwtAxioms(j);
  }
}
