/** The bytes of an invite that are signed, and when they determine the invite. */
module Invite {
  import opened Basics
  import opened Bytes
  import opened Members

  const BAR: byte := 124

  /** The 36 characters of a room identifier, and the 40 of a fingerprint, as bytes. */
  type RoomText = s: seq<byte> | |s| == 36 witness ToBytes(0, 36)
  type FingerprintText = s: seq<byte> | |s| == 40 witness ToBytes(0, 40)

  /** An invite without its signature. */
  datatype Token = Token(room: RoomText, onion: seq<byte>, port: u16, hostKey: seq<byte>, inviter: FingerprintText,
                         invited: FingerprintText, role: Role, expiresAt: u64)

  function RoleByte(role: Role): byte {
    match role
    case Member => 0
    case Admin => 1
    case Owner => 2
  }

  /** The part whose layout depends on lengths that are not written down. */
  function Middle(t: Token): seq<byte> {
    t.onion + [BAR] + ToBytes(t.port, 2) + [BAR] + t.hostKey
  }

  const TAIL := 92

  function Tail(t: Token): (tail: seq<byte>)
    ensures |tail| == TAIL
  {
    t.inviter + [BAR] + t.invited + [BAR] + [RoleByte(t.role)] + [BAR] + ToBytes(t.expiresAt, 8)
  }

  function SignedData(t: Token): seq<byte> {
    t.room + [BAR] + Middle(t) + [BAR] + Tail(t)
  }

  method ComputeSignedData(t: Token) returns (data: seq<byte>)
    ensures data == SignedData(t)
  {
    data := t.room;
    data := data + [BAR];
    data := data + t.onion;
    data := data + [BAR];
    data := data + ToBytes(t.port, 2);
    data := data + [BAR];
    data := data + t.hostKey;
    data := data + [BAR];
    data := data + t.inviter;
    data := data + [BAR];
    data := data + t.invited;
    data := data + [BAR];
    data := data + [RoleByte(t.role)];
    data := data + [BAR];
    data := data + ToBytes(t.expiresAt, 8);
    assert data == SignedData(t);
  }

  /** Where everything is: the identifier of the room, the address, the port with its high
      byte first, the key, both fingerprints, the role and the expiry, each but the last
      followed by a separator. */
  lemma LayoutExactly(t: Token)
    ensures var d, p, q := SignedData(t), 37 + |t.onion|, 41 + |t.onion| + |t.hostKey|;
      && |d| == q + 93
      && d[..36] == t.room && d[36] == 124
      && d[37..p] == t.onion && d[p] == 124
      && 0x100 * d[p + 1] as int + d[p + 2] as int == t.port && d[p + 3] == 124
      && d[p + 4..q] == t.hostKey && d[q] == 124
      && d[q + 1..q + 41] == t.inviter && d[q + 41] == 124
      && d[q + 42..q + 82] == t.invited && d[q + 82] == 124
      && d[q + 83] == (match t.role case Member => 0 case Admin => 1 case Owner => 2) && d[q + 84] == 124
      && FromBytes(d[q + 85..]) == t.expiresAt
  {
    var d, p, q := SignedData(t), 37 + |t.onion|, 41 + |t.onion| + |t.hostKey|;
    var m, tail := Middle(t), Tail(t);
    assert d[37..q] == m && d[q + 1..] == tail;
    MiddleExactly(t);
    TailExactly(t);
    assert d[37..p] == m[..|t.onion|] && d[p + 4..q] == m[|t.onion| + 4..];
    assert d[q + 1..q + 41] == tail[..40] && d[q + 42..q + 82] == tail[41..81] && d[q + 85..] == tail[84..];
  }

  lemma MiddleExactly(t: Token)
    ensures var m, n := Middle(t), |t.onion|;
      && |m| == n + 4 + |t.hostKey| && m[..n] == t.onion && m[n] == 124
      && 0x100 * m[n + 1] as int + m[n + 2] as int == t.port && m[n + 3] == 124 && m[n + 4..] == t.hostKey
  {
    var port := ToBytes(t.port, 2);
    Widths();
    FromTo(t.port, 2);
    TwoBytes(port);
    assert Middle(t)[|t.onion| + 1] == port[0] && Middle(t)[|t.onion| + 2] == port[1];
  }

  lemma TailExactly(t: Token)
    ensures var e := Tail(t);
      && e[..40] == t.inviter && e[40] == 124 && e[41..81] == t.invited && e[81] == 124
      && e[82] == (match t.role case Member => 0 case Admin => 1 case Owner => 2) && e[83] == 124
      && FromBytes(e[84..]) == t.expiresAt
  {
    Widths();
    FromTo(t.expiresAt, 8);
    assert Tail(t)[84..] == ToBytes(t.expiresAt, 8);
  }

  lemma TwoBytes(b: seq<byte>)
    requires |b| == 2
    ensures FromBytes(b) == 0x100 * b[0] as int + b[1] as int
  {
    assert b[..1][..0] == [];
    assert FromBytes(b[..1]) == b[0];
  }

  lemma NumberBytes(x: nat, y: nat, width: nat)
    requires x < Pow256(width) && y < Pow256(width) && ToBytes(x, width) == ToBytes(y, width)
    ensures x == y
  {
    FromTo(x, width);
    FromTo(y, width);
  }

  lemma SameParts(t: Token, u: Token)
    requires SignedData(t) == SignedData(u)
    ensures t.room == u.room && Middle(t) == Middle(u) && Tail(t) == Tail(u)
  {
    var d, e := SignedData(t), SignedData(u);
    assert d[..36] == t.room && e[..36] == u.room;
    assert d[37..|d| - TAIL - 1] == Middle(t) && e[37..|e| - TAIL - 1] == Middle(u);
    assert d[|d| - TAIL..] == Tail(t) && e[|e| - TAIL..] == Tail(u);
  }

  lemma SameTail(t: Token, u: Token)
    requires Tail(t) == Tail(u)
    ensures t.inviter == u.inviter && t.invited == u.invited && t.role == u.role && t.expiresAt == u.expiresAt
  {
    var a, b := Tail(t), Tail(u);
    assert a[..40] == t.inviter && b[..40] == u.inviter;
    assert a[41..81] == t.invited && b[41..81] == u.invited;
    assert a[82] == RoleByte(t.role) && b[82] == RoleByte(u.role);
    assert a[84..] == ToBytes(t.expiresAt, 8) && b[84..] == ToBytes(u.expiresAt, 8);
    Widths();
    NumberBytes(t.expiresAt, u.expiresAt, 8);
  }

  lemma SameMiddle(t: Token, u: Token)
    requires Middle(t) == Middle(u) && |t.onion| == |u.onion|
    ensures t.onion == u.onion && t.port == u.port && t.hostKey == u.hostKey
  {
    var a, b, n := Middle(t), Middle(u), |t.onion|;
    assert a[..n] == t.onion && b[..n] == u.onion;
    assert a[n + 1..n + 3] == ToBytes(t.port, 2) && b[n + 1..n + 3] == ToBytes(u.port, 2);
    assert a[n + 4..] == t.hostKey && b[n + 4..] == u.hostKey;
    Widths();
    NumberBytes(t.port, u.port, 2);
  }

  /** Two invites with the same signed bytes are the same exactly when their addresses are
      equally long, whatever bytes the key consists of. */
  lemma SameSignedDataSameTokenIff(t: Token, u: Token)
    requires SignedData(t) == SignedData(u)
    ensures t == u <==> |t.onion| == |u.onion|
  {
    SameParts(t, u);
    SameTail(t, u);
    if |t.onion| == |u.onion| {
      SameMiddle(t, u);
    }
  }

  lemma NotLonger(t: Token, u: Token)
    requires Middle(t) == Middle(u) && BAR !in u.onion
    ensures |u.onion| <= |t.onion|
  {
    assert Middle(t)[|t.onion|] == BAR;
    assert forall i :: 0 <= i < |u.onion| ==> Middle(u)[i] == u.onion[i] != BAR;
  }

  /** The signed bytes determine the invite among those whose address has no separator. */
  lemma InjectiveWithoutBar(t: Token, u: Token)
    requires BAR !in t.onion && BAR !in u.onion
    ensures SignedData(t) == SignedData(u) <==> t == u
  {
    if SignedData(t) == SignedData(u) {
      SameParts(t, u);
      NotLonger(t, u);
      NotLonger(u, t);
      SameSignedDataSameTokenIff(t, u);
    }
  }

  /** The middle part can also be read with an address of length p. */
  predicate ReadableAt(middle: seq<byte>, p: nat) {
    p + 4 <= |middle| && middle[p] == BAR && middle[p + 3] == BAR
  }

  function ReadAt(t: Token, p: nat): Token
    requires ReadableAt(Middle(t), p)
  {
    var m := Middle(t);
    FromBytesBound(m[p + 1..p + 3]);
    Widths();
    t.(onion := m[..p], port := FromBytes(m[p + 1..p + 3]), hostKey := m[p + 4..])
  }

  lemma Pieces(m: seq<byte>, p: nat)
    requires p + 4 <= |m|
    ensures m == m[..p] + [m[p]] + m[p + 1..p + 3] + [m[p + 3]] + m[p + 4..]
  {
  }

  lemma ReadAtSame(t: Token, p: nat)
    requires ReadableAt(Middle(t), p)
    ensures SignedData(ReadAt(t, p)) == SignedData(t)
  {
    var m, u := Middle(t), ReadAt(t, p);
    ToFrom(m[p + 1..p + 3]);
    Pieces(m, p);
    assert Middle(u) == m;
    assert Tail(u) == Tail(t);
  }

  /** No other invite has the signed bytes of this one exactly when its middle part has no
      other two separators three apart. */
  lemma DeterminedIff(t: Token)
    ensures (forall u: Token :: SignedData(u) == SignedData(t) ==> u == t)
       <==> (forall p: nat :: ReadableAt(Middle(t), p) ==> p == |t.onion|)
  {
    if p: nat :| ReadableAt(Middle(t), p) && p != |t.onion| {
      ReadAtSame(t, p);
      assert ReadAt(t, p).onion != t.onion;
    } else {
      forall u: Token | SignedData(u) == SignedData(t) ensures u == t {
        SameParts(t, u);
        assert ReadableAt(Middle(u), |u.onion|);
        SameSignedDataSameTokenIff(t, u);
      }
    }
  }

  /** Without the condition on addresses there are collisions: a separator in the address can
      be taken for the end of it. */
  lemma Collision(t: Token)
    requires t.onion == [97, BAR, 98, 99, BAR]
    ensures exists u: Token :: u != t && SignedData(u) == SignedData(t)
  {
    assert Middle(t)[1] == BAR && Middle(t)[4] == BAR;
    ReadAtSame(t, 1);
    assert ReadAt(t, 1).onion != t.onion;
  }
}
