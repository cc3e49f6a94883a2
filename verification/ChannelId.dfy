/** Room name and initiator of a pair of identities (client/router.go, client/keys.go). */
module ChannelId {

  function HexDigit(d: bv8): char
    requires d < 16
  {
    "0123456789abcdef"[d as int]
  }

  /** hex.EncodeToString */
  function Hex(key: seq<bv8>): (s: string)
    ensures |s| == 2 * |key|
  {
    if |key| == 0 then [] else [HexDigit(key[0] / 16), HexDigit(key[0] % 16)] + Hex(key[1..])
  }

  /** The number a hex digit stands for. */
  function DigitValue(c: char): int {
    if '0' <= c <= '9' then c as int - '0' as int else c as int - 'a' as int + 10
  }

  lemma DigitOfValue(d: bv8)
    requires d < 16
    ensures DigitValue(HexDigit(d)) == d as int
  {
  }

  /** Two digits for every byte, the upper half first. */
  lemma {:induction false} HexSpellsBytes(key: seq<bv8>, i: nat)
    requires i < |key|
    ensures 16 * DigitValue(Hex(key)[2 * i]) + DigitValue(Hex(key)[2 * i + 1]) == key[i] as int
    decreases i
  {
    if i == 0 {
      DigitOfValue(key[0] / 16);
      DigitOfValue(key[0] % 16);
    } else {
      HexSpellsBytes(key[1..], i - 1);
    }
  }

  /** Identity.ID: the first 16 hex digits of the key, which must hold at least 8 bytes. */
  function ID(key: seq<bv8>): string
    requires |key| >= 8
  {
    Hex(key)[..16]
  }

  /** strings.Compare */
  function Compare(x: string, y: string): int {
    if x == y then 0
    else if |x| == 0 then -1
    else if |y| == 0 then 1
    else if x[0] == y[0] then Compare(x[1..], y[1..])
    else if x[0] < y[0] then -1 else 1
  }

  /** The order of strings: a proper prefix is smaller, and otherwise the first difference decides. */
  predicate Smaller(x: string, y: string) {
    || (|x| < |y| && x == y[..|x|])
    || (exists k :: 0 <= k < |x| && k < |y| && x[..k] == y[..k] && x[k] < y[k])
  }

  lemma SmallerTail(x: string, y: string)
    requires |x| > 0 && |y| > 0 && x[0] == y[0]
    ensures Smaller(x, y) <==> Smaller(x[1..], y[1..])
  {
    var s, t := x[1..], y[1..];
    forall k | 0 <= k < |s| && k < |t| && s[..k] == t[..k] && s[k] < t[k] ensures Smaller(x, y) {
      assert x[..k + 1] == [x[0]] + s[..k] && y[..k + 1] == [y[0]] + t[..k];
      assert x[k + 1] < y[k + 1];
    }
    forall k | 0 <= k < |x| && k < |y| && x[..k] == y[..k] && x[k] < y[k] ensures Smaller(s, t) {
      assert s[..k - 1] == x[..k][1..] && t[..k - 1] == y[..k][1..];
      assert s[k - 1] < t[k - 1];
    }
    assert |x| < |y| ==> y[..|x|] == [y[0]] + t[..|s|];
  }

  lemma SameFirst(x: string, y: string, k: nat)
    ensures 0 < k <= |x| && k <= |y| && x[..k] == y[..k] ==> x[0] == y[0]
  {
    if 0 < k <= |x| && k <= |y| {
      assert x[..k][0] == x[0] && y[..k][0] == y[0];
    }
  }

  lemma SmallerHead(x: string, y: string)
    requires |x| == 0 || |y| == 0 || x[0] != y[0]
    ensures Smaller(x, y) <==> if |x| == 0 || |y| == 0 then |x| < |y| else x[0] < y[0]
  {
    if |x| > 0 && |y| > 0 {
      assert x[..0] == y[..0] == [];
      forall k | 0 <= k < |x| && k < |y| && x[..k] == y[..k] && x[k] < y[k] ensures k == 0 {
        SameFirst(x, y, k);
      }
      SameFirst(x, y, |x|);
    }
  }

  /** Compare is negative, zero or positive as its first string is smaller, equal or larger. */
  lemma {:induction false} CompareIsOrder(x: string, y: string)
    ensures Compare(x, y) < 0 <==> Smaller(x, y)
    ensures Compare(x, y) == 0 <==> x == y
    ensures Compare(x, y) > 0 <==> Smaller(y, x)
    ensures Compare(x, y) == -Compare(y, x)
  {
    if |x| > 0 && |y| > 0 && x[0] == y[0] {
      assert x == [x[0]] + x[1..] && y == [y[0]] + y[1..];
      CompareIsOrder(x[1..], y[1..]);
      SmallerTail(x, y);
      SmallerTail(y, x);
    } else {
      SmallerHead(x, y);
      SmallerHead(y, x);
    }
  }

  /** channelID; `hash` is the hex encoding of SHA-256. */
  function ChannelOf(own: seq<bv8>, remote: seq<bv8>, hash: string -> string): (r: (string, bool))
    requires |own| >= 8 && |remote| >= 8
  {
    var str1, str2 := ID(own), ID(remote);
    var comp := Compare(str1, str2);
    if comp < 0 then (hash(str2[..16] + str1[16..]), true)
    else if comp > 0 then (hash(str1[..16] + str2[16..]), false)
    else (hash([]), false)
  }

  /** Both sides name the same room, and one of them leads exactly when the IDs differ. */
  lemma ChannelAgreement(own: seq<bv8>, remote: seq<bv8>, hash: string -> string)
    requires |own| >= 8 && |remote| >= 8
    ensures ChannelOf(own, remote, hash).0 == ChannelOf(remote, own, hash).0
    ensures ID(own) != ID(remote) <==> ChannelOf(own, remote, hash).1 != ChannelOf(remote, own, hash).1
    ensures ID(own) == ID(remote) ==> !ChannelOf(own, remote, hash).1 && !ChannelOf(remote, own, hash).1
  {
    CompareIsOrder(ID(own), ID(remote));
  }

  /** The initiator is the side with the smaller ID. */
  lemma InitiatorExactly(own: seq<bv8>, remote: seq<bv8>, hash: string -> string)
    requires |own| >= 8 && |remote| >= 8
    ensures ChannelOf(own, remote, hash).1 <==> Smaller(ID(own), ID(remote))
  {
    CompareIsOrder(ID(own), ID(remote));
  }

  /** The larger of two IDs. */
  function LargerId(own: seq<bv8>, remote: seq<bv8>): string
    requires |own| >= 8 && |remote| >= 8
  {
    if Smaller(ID(own), ID(remote)) then ID(remote) else ID(own)
  }

  /** The second slice is empty, so the room of either side is the hash of the larger ID alone. */
  lemma RoomOfTheLargerId(own: seq<bv8>, remote: seq<bv8>, hash: string -> string)
    requires |own| >= 8 && |remote| >= 8 && ID(own) != ID(remote)
    ensures ChannelOf(own, remote, hash).0 == hash(LargerId(own, remote))
    ensures LargerId(own, remote) == LargerId(remote, own)
  {
    CompareIsOrder(ID(own), ID(remote));
    assert ID(remote)[..16] + ID(own)[16..] == ID(remote);
    assert ID(own)[..16] + ID(remote)[16..] == ID(own);
  }

  ghost predicate Injective(hash: string -> string) {
    forall x, y :: hash(x) == hash(y) ==> x == y
  }

  /**
   Two pairs meet in one room exactly when both are pairs of equal IDs, whoever
   they are, or neither is and their larger IDs agree, whoever the smaller ones are.
   */
  lemma SameRoomExactly(a: seq<bv8>, b: seq<bv8>, c: seq<bv8>, d: seq<bv8>, hash: string -> string)
    requires |a| >= 8 && |b| >= 8 && |c| >= 8 && |d| >= 8 && Injective(hash)
    ensures ChannelOf(a, b, hash).0 == ChannelOf(c, d, hash).0
            <==> if ID(a) == ID(b) || ID(c) == ID(d) then ID(a) == ID(b) && ID(c) == ID(d)
                 else LargerId(a, b) == LargerId(c, d)
  {
    CompareIsOrder(ID(a), ID(b));
    CompareIsOrder(ID(c), ID(d));
    if ID(a) != ID(b) {
      RoomOfTheLargerId(a, b, hash);
    }
    if ID(c) != ID(d) {
      RoomOfTheLargerId(c, d, hash);
    }
  }

  /** The first digit of an ID is the upper half of the first byte. */
  lemma FirstDigit(key: seq<bv8>)
    requires |key| >= 8
    ensures ID(key)[0] == HexDigit(key[0] / 16)
  {
  }

  /** Three identities, of which two different pairs share a room under every hash. */
  lemma RoomIsShared(hash: string -> string) returns (a: seq<bv8>, b: seq<bv8>, c: seq<bv8>)
    ensures |a| == |b| == |c| == 32 && ID(a) != ID(b) && ID(a) != ID(c) && ID(b) != ID(c)
    ensures ChannelOf(a, c, hash).0 == ChannelOf(b, c, hash).0
  {
    a, b, c := seq(32, _ => 0x00), seq(32, _ => 0x10), seq(32, _ => 0x20);
    FirstDigit(a);
    FirstDigit(b);
    FirstDigit(c);
    RoomOfTheLargerId(a, c, hash);
    RoomOfTheLargerId(b, c, hash);
  }

  /** Every identity shares one room with itself and with every other identity's room with itself. */
  lemma SelfPairsShare(a: seq<bv8>, c: seq<bv8>, hash: string -> string)
    requires |a| >= 8 && |c| >= 8
    ensures ChannelOf(a, a, hash) == ChannelOf(c, c, hash) == (hash([]), false)
  {
    CompareIsOrder(ID(a), ID(a));
    CompareIsOrder(ID(c), ID(c));
  }

  /** Two identities with different IDs whose rooms with themselves are the same. */
  lemma SelfRoomIsShared(hash: string -> string) returns (a: seq<bv8>, c: seq<bv8>)
    ensures |a| == |c| == 32 && ID(a) != ID(c) && LargerId(a, a) != LargerId(c, c)
    ensures ChannelOf(a, a, hash).0 == ChannelOf(c, c, hash).0
  {
    a, c := seq(32, _ => 0x00), seq(32, _ => 0x10);
    FirstDigit(a);
    FirstDigit(c);
    SelfPairsShare(a, c, hash);
  }

  /** The ID of a key of equal bytes below 160. */
  lemma IdOfEqualBytes(key: seq<bv8>, d: bv8, digits: string)
    requires d < 10 && key == seq(32, _ => 16 * d) && digits == seq(16, i => if i % 2 == 0 then HexDigit(d) else '0')
    ensures ID(key) == digits
  {
    forall i | 0 <= i < 16 ensures ID(key)[i] == digits[i] {
      HexPair(key, i / 2);
    }
  }

  lemma {:induction false} HexPair(key: seq<bv8>, i: nat)
    requires i < |key|
    ensures Hex(key)[2 * i] == HexDigit(key[i] / 16) && Hex(key)[2 * i + 1] == HexDigit(key[i] % 16)
    decreases i
  {
    if i > 0 {
      HexPair(key[1..], i - 1);
    }
  }

  /** A client with key 00...00 leads its handshake with 20...20, in the room of the latter. */
  lemma SmallerKeyLeads(hash: string -> string) returns (own: seq<bv8>, remote: seq<bv8>)
    ensures own == seq(32, _ => 0x00) && remote == seq(32, _ => 0x20)
    ensures ChannelOf(own, remote, hash) == (hash("2020202020202020"), true)
  {
    own, remote := seq(32, _ => 0x00), seq(32, _ => 0x20);
    IdOfEqualBytes(own, 0, "0000000000000000");
    IdOfEqualBytes(remote, 2, "2020202020202020");
    InitiatorExactly(own, remote, hash);
    assert ID(own)[..0] == ID(remote)[..0] && ID(own)[0] < ID(remote)[0];
    RoomOfTheLargerId(own, remote, hash);
  }
}
