/** Domain-tagged, length-prefixed framing: what is hashed into a cache salt or a routing key can be
    read back in one way only (cachesalt/cachesalt.go, cacheroute/cacheroute.go). */
module Framing {
  import opened Seqs

  type Bytes = seq<int>  // each element a byte value

  const LIMIT: int := 0x1_0000_0000  // fields are shorter than this

  /** uint32_be(n). */
  function Header(n: int): (h: Bytes)
    requires 0 <= n < LIMIT
    ensures |h| == 4
  {
    [n / 0x100_0000, n / 0x1_0000 % 0x100, n / 0x100 % 0x100, n % 0x100]
  }

  function ReadHeader(b: Bytes): int
    requires |b| >= 4
  {
    b[0] * 0x100_0000 + b[1] * 0x1_0000 + b[2] * 0x100 + b[3]
  }

  lemma HeaderRoundTrip(n: int, rest: Bytes)
    requires 0 <= n < LIMIT
    ensures ReadHeader(Header(n) + rest) == n
    ensures forall i :: 0 <= i < 4 ==> 0 <= Header(n)[i] < 256
  {
    var a, b, c := n / 0x100, n / 0x1_0000, n / 0x100_0000;
    assert n == a * 0x100 + n % 0x100 && a == b * 0x100 + a % 0x100 && b == c * 0x100 + b % 0x100;
    assert 0 <= c < 0x100;
  }

  /** The most significant byte comes first: headers order as their lengths do. */
  lemma HeadersOrder(n: int, m: int)
    requires 0 <= n < m < LIMIT
    ensures Less(Header(n), Header(m))
  {
    var a, b := Header(n), Header(m);
    HeaderRoundTrip(n, []);
    HeaderRoundTrip(m, []);
    assert a + [] == a && b + [] == b;
    assert n == a[0] * 0x100_0000 + a[1] * 0x1_0000 + a[2] * 0x100 + a[3];
    assert m == b[0] * 0x100_0000 + b[1] * 0x1_0000 + b[2] * 0x100 + b[3];
    LessByFirst(a, b);
  }

  /** Four-byte strings order by their first differing byte. */
  lemma LessByFirst(a: Bytes, b: Bytes)
    requires |a| == |b| == 4
    ensures Less(a, b) <==>
            a[0] < b[0] || (a[0] == b[0] && (a[1] < b[1] || (a[1] == b[1] && (a[2] < b[2] || (a[2] == b[2] && a[3] < b[3])))))
  {
    assert Less(a[1..][1..][1..][1..], b[1..][1..][1..][1..]) == false;
    assert Less(a[1..][1..][1..], b[1..][1..][1..]) <==> a[3] < b[3];
    assert Less(a[1..][1..], b[1..][1..]) <==> a[2] < b[2] || (a[2] == b[2] && a[3] < b[3]);
    assert Less(a[1..], b[1..]) <==> a[1] < b[1] || (a[1] == b[1] && (a[2] < b[2] || (a[2] == b[2] && a[3] < b[3])));
  }

  function Frame(f: Bytes): Bytes
    requires |f| < LIMIT
  {
    Header(|f|) + f
  }

  predicate Framable(fields: seq<Bytes>) { forall f :: f in fields ==> |f| < LIMIT }

  /** The bytes Sum writes after the tag. */
  function FrameAll(fields: seq<Bytes>): Bytes
    requires Framable(fields)
  {
    if fields == [] then [] else Frame(fields[0]) + FrameAll(fields[1..])
  }

  /** What Sum hashes; None stands for its panic on a field beyond the framing limit. */
  function Preimage(tag: Bytes, fields: seq<Bytes>): Option<Bytes> {
    if Framable(fields) then Some(tag + FrameAll(fields)) else None
  }

  /** Sum's loop over the fields, as it writes into the hash. */
  method WriteFields(tag: Bytes, fields: seq<Bytes>) returns (written: Option<Bytes>)
    ensures written == Preimage(tag, fields)
  {
    var out := tag;
    for i := 0 to |fields|
      invariant Framable(fields[..i]) && out == tag + FrameAll(fields[..i])
    {
      assert fields[i] in fields;
      if |fields[i]| >= LIMIT { return None; }
      assert fields[..i + 1] == fields[..i] + [fields[i]];
      assert Framable(fields[..i + 1]);
      FrameAppend(fields[..i], fields[i]);
      out := out + Header(|fields[i]|);
      out := out + fields[i];
    }
    assert fields[..|fields|] == fields;
    written := Some(out);
  }

  lemma {:induction false} FrameAppend(fields: seq<Bytes>, f: Bytes)
    requires Framable(fields) && |f| < LIMIT
    ensures Framable(fields + [f]) && FrameAll(fields + [f]) == FrameAll(fields) + Header(|f|) + f
  {
    if fields == [] {
      assert fields + [f] == [f];
      assert Frame(f) + [] == Header(|f|) + f;
    } else {
      assert (fields + [f])[1..] == fields[1..] + [f];
      FrameAppend(fields[1..], f);
      assert Frame(fields[0]) + (FrameAll(fields[1..]) + Header(|f|) + f) ==
             Frame(fields[0]) + FrameAll(fields[1..]) + Header(|f|) + f;
    }
  }

  // ---- Reading it back ----------------------------------------------------------------

  function ParseAll(b: Bytes): Option<seq<Bytes>>
    decreases |b|
  {
    if b == [] then Some([])
    else if |b| < 4 then None
    else
      var n := ReadHeader(b);
      if n < 0 || |b| < 4 + n then None
      else
        match ParseAll(b[4 + n..])
        case None => None
        case Some(rest) => Some([b[4..4 + n]] + rest)
  }

  /** Framed fields decode to themselves, for lists of any length. */
  lemma {:induction false} ParseFrames(fields: seq<Bytes>)
    requires Framable(fields)
    ensures ParseAll(FrameAll(fields)) == Some(fields)
  {
    if fields != [] {
      ParseFrames(fields[1..]);
      ParseOne(fields[0], FrameAll(fields[1..]));
      assert [fields[0]] + fields[1..] == fields;
    }
  }

  /** The first frame of a message is read off exactly. */
  lemma ParseOne(f: Bytes, rest: Bytes)
    requires |f| < LIMIT
    ensures ParseAll(Frame(f) + rest) ==
            match ParseAll(rest) { case None => None case Some(more) => Some([f] + more) }
  {
    hide Header, ReadHeader;
    var b := Frame(f) + rest;
    HeaderRoundTrip(|f|, f + rest);
    assert b == Header(|f|) + (f + rest);
    assert b[4..4 + |f|] == f && b[4 + |f|..] == rest;
  }

  /** Under one tag, distinct field lists never hash the same bytes. */
  lemma FramingIsInjective(tag: Bytes, a: seq<Bytes>, b: seq<Bytes>)
    requires Framable(a) && Framable(b)
    ensures Preimage(tag, a) == Preimage(tag, b) <==> a == b
  {
    ParseFrames(a);
    ParseFrames(b);
    if Preimage(tag, a) == Preimage(tag, b) {
      assert (tag + FrameAll(a))[|tag|..] == FrameAll(a);
      assert (tag + FrameAll(b))[|tag|..] == FrameAll(b);
    }
  }

  /** Tags of which neither is a prefix of the other keep their encodings apart. */
  lemma TagsSeparate(s: Bytes, t: Bytes, a: seq<Bytes>, b: seq<Bytes>)
    requires Framable(a) && Framable(b) && !(s <= t) && !(t <= s)
    ensures Preimage(s, a) != Preimage(t, b)
  {
    var i :| 0 <= i < |s| && i < |t| && s[i] != t[i];
    assert (s + FrameAll(a))[i] != (t + FrameAll(b))[i];
  }

  // ---- Cache salts and routing keys -------------------------------------------------------

  const SALT_TAG: Bytes := Codes("tinfoil/cache-salt/v1")
  const KEY_TAG: Bytes := Codes("tinfoil/route-key/v1")

  datatype Mode = NoSalt | Tenant | User

  /** What Derive hashes, and in which mode; None without an identity, or on Sum's panic. */
  function DeriveInput(tenant: Bytes, secret: Bytes): (Option<Bytes>, Mode) {
    if tenant == [] then (None, NoSalt)
    else if secret == [] then (Preimage(SALT_TAG, [tenant]), Tenant)
    else (Preimage(SALT_TAG, [tenant, secret]), User)
  }

  /** What Derive hashes reads back as the tenant alone, or the tenant and the secret, and the mode says
      which; without a tenant there is nothing. */
  lemma DeriveReads(tenant: Bytes, secret: Bytes)
    requires |tenant| < LIMIT && |secret| < LIMIT
    ensures var (input, mode) := DeriveInput(tenant, secret);
            (tenant == [] ==> input.None? && mode == NoSalt) &&
            (tenant != [] ==>
              input.Some? && SALT_TAG <= input.value &&
              ParseAll(input.value[|SALT_TAG|..]) == Some(if secret == [] then [tenant] else [tenant, secret]) &&
              mode == if secret == [] then Tenant else User)
  {
    if tenant != [] {
      var fields := if secret == [] then [tenant] else [tenant, secret];
      ParseFrames(fields);
      assert (SALT_TAG + FrameAll(fields))[|SALT_TAG|..] == FrameAll(fields);
    }
  }

  /** Two callers share a salt input exactly when tenant and user secret agree; in particular a
      tenant-wide input is never a per-user one. */
  lemma SaltInputsSeparate(t: Bytes, s: Bytes, t': Bytes, s': Bytes)
    requires t != [] && t' != [] && |t| < LIMIT && |s| < LIMIT && |t'| < LIMIT && |s'| < LIMIT
    ensures DeriveInput(t, s).0.Some?
    ensures DeriveInput(t, s).0 == DeriveInput(t', s').0 <==> t == t' && s == s'
    ensures DeriveInput(t, s).0 == DeriveInput(t', s').0 ==> DeriveInput(t, s).1 == DeriveInput(t', s').1
  {
    var a := if s == [] then [t] else [t, s];
    var b := if s' == [] then [t'] else [t', s'];
    FramingIsInjective(SALT_TAG, a, b);
    assert a == b <==> t == t' && s == s' by {
      if a == b {
        assert a[0] == b[0];
        assert |a| == 2 ==> a[1] == b[1];
      }
    }
  }

  /** No cache salt input is ever a routing key input. */
  lemma SaltsAndKeysSeparate(a: seq<Bytes>, b: seq<Bytes>)
    requires Framable(a) && Framable(b)
    ensures Preimage(SALT_TAG, a) != Preimage(KEY_TAG, b)
  {
    assert SALT_TAG[8] == 'c' as int && KEY_TAG[8] == 'r' as int;
    TagsSeparate(SALT_TAG, KEY_TAG, a, b);
  }
}
