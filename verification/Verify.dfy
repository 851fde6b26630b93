/** Hexadecimal, the commitment and the seeded shuffle: shared/verify/index.ts. */
module Verify {
  import opened Options
  import opened Sequences

  type Byte = b: int | 0 <= b < 256
  type Card = c: int | 0 <= c < 52
  type Digest = d: seq<Byte> | |d| == 32 witness seq(32, _ => 0)
  /** SHA-256 is any function from bytes to 32 bytes. */
  type Sha256 = seq<Byte> -> Digest

  datatype HandProof = HandProof(commitment: string, seed: string, nonce: string, deck: seq<Option<Card>>)

  // ---------- hexadecimal ----------

  predicate IsSpace(c: char) {
    var u := c as int;
    || 9 <= u <= 13 || u == 32 || u == 0xA0 || u == 0x1680 || 0x2000 <= u <= 0x200A
    || u == 0x2028 || u == 0x2029 || u == 0x202F || u == 0x205F || u == 0x3000 || u == 0xFEFF
  }

  function HexValue(c: char): Option<int> {
    if '0' <= c <= '9' then Some(c as int - '0' as int)
    else if 'a' <= c <= 'f' then Some(c as int - 'a' as int + 10)
    else if 'A' <= c <= 'F' then Some(c as int - 'A' as int + 10)
    else None
  }

  function TrimStart(s: string): string {
    if s != [] && IsSpace(s[0]) then TrimStart(s[1..]) else s
  }

  /** The value of the longest prefix of hexadecimal digits, after what has been read so far. */
  function ParseDigits(s: string, soFar: Option<int>): Option<int> {
    if s == [] || HexValue(s[0]).None? then soFar
    else ParseDigits(s[1..], Some((if soFar.Some? then soFar.value * 16 else 0) + HexValue(s[0]).value))
  }

  /** `parseInt(s, 16)`; None stands for NaN. */
  function ParseInt16(s: string): Option<int> {
    var t := TrimStart(s);
    var unsigned := if t != [] && (t[0] == '+' || t[0] == '-') then t[1..] else t;
    var digits := if |unsigned| >= 2 && unsigned[0] == '0' && (unsigned[1] == 'x' || unsigned[1] == 'X')
                  then unsigned[2..] else unsigned;
    match ParseDigits(digits, None)
    case None => None
    case Some(v) => Some(if t != [] && t[0] == '-' then -v else v)
  }

  /** What storing a number in a `Uint8Array` keeps. */
  function ToUint8(n: Option<int>): Byte {
    if n.None? then 0 else n.value % 256
  }

  /** `hex.substr(2 * i, 2)`. */
  function Pair(hex: string, i: nat): (pair: string)
    requires 2 * i + 2 <= |hex|
    ensures |pair| == 2
  {
    hex[2 * i..2 * i + 2]
  }

  function ByteOf(pair: string): Byte {
    ToUint8(ParseInt16(pair))
  }

  function FromHex(hex: string): (bytes: seq<Byte>)
    ensures |bytes| == |hex| / 2
  {
    seq(|hex| / 2, i requires 0 <= i < |hex| / 2 => ByteOf(Pair(hex, i)))
  }

  method HexToBytes(hex: string) returns (bytes: array<Byte>)
    ensures fresh(bytes) && bytes[..] == FromHex(hex)
  {
    bytes := new Byte[|hex| / 2](_ => 0);
    for i := 0 to bytes.Length
      invariant forall k :: 0 <= k < i ==> bytes[k] == FromHex(hex)[k]
    {
      bytes[i] := ByteOf(Pair(hex, i));
    }
  }

  function HexDigit(n: int): char
    requires 0 <= n < 16
  {
    if n < 10 then ('0' as int + n) as char else ('a' as int + n - 10) as char
  }

  /** `b.toString(16).padStart(2, '0')`. */
  function PaddedHex(b: Byte): string {
    var digits := if b < 16 then [HexDigit(b)] else [HexDigit(b / 16), HexDigit(b % 16)];
    if |digits| < 2 then "0" + digits else digits
  }

  function BytesToHex(bytes: seq<Byte>): string {
    if bytes == [] then "" else PaddedHex(bytes[0]) + BytesToHex(bytes[1..])
  }

  /** What `bytesToHex` writes: an even number of lower-case digits. */
  predicate IsLowerHex(s: string) {
    |s| % 2 == 0 && forall i :: 0 <= i < |s| ==> '0' <= s[i] <= '9' || 'a' <= s[i] <= 'f'
  }

  lemma ParsePair(hi: char, lo: char)
    requires HexValue(hi).Some? && HexValue(lo).Some?
    ensures ByteOf([hi, lo]) == HexValue(hi).value * 16 + HexValue(lo).value
  {
    var pair := [hi, lo];
    var h, l := HexValue(hi).value, HexValue(lo).value;
    assert TrimStart(pair) == pair;
    assert pair[1..] == [lo] && [lo][1..] == [];
    assert ParseDigits([lo], Some(h)) == Some(h * 16 + l);
    assert ParseDigits(pair, None) == Some(h * 16 + l);
  }

  /**
   * Every pair of characters, as `parseInt` and the byte array read it: two digits as they
   * stand, one digit alone before anything else, one digit behind a sign or white space,
   * a negative one counted down from 256, and everything else as 0.
   */
  lemma PairMeaning(a: char, b: char)
    ensures ByteOf([a, b]) ==
      if HexValue(a).Some? then
        (if HexValue(b).Some? then HexValue(a).value * 16 + HexValue(b).value else HexValue(a).value)
      else if HexValue(b).Some? && (a == '+' || IsSpace(a)) then HexValue(b).value
      else if HexValue(b).Some? && a == '-' then (256 - HexValue(b).value) % 256
      else 0
  {
    if HexValue(a).Some? && HexValue(b).Some? {
      ParsePair(a, b);
    } else {
      var pair := [a, b];
      assert pair[1..] == [b] && [b][1..] == [] && pair[2..] == [];
      assert TrimStart([]) == [] && TrimStart([b]) == if IsSpace(b) then [] else [b];
      assert TrimStart(pair) == if IsSpace(a) then TrimStart([b]) else pair;
      assert ParseDigits([], None) == None;
      assert ParseDigits([b], None) == HexValue(b);
      assert ParseDigits(pair, None) == HexValue(a);
    }
  }

  lemma ByteRoundTrip(b: Byte)
    ensures |PaddedHex(b)| == 2 && ByteOf(PaddedHex(b)) == b && IsLowerHex(PaddedHex(b))
  {
    var hi, lo := HexDigit(b / 16), HexDigit(b % 16);
    assert PaddedHex(b) == [hi, lo];
    ParsePair(hi, lo);
  }

  lemma {:induction false} BytesToHexAt(bytes: seq<Byte>)
    ensures |BytesToHex(bytes)| == 2 * |bytes| && IsLowerHex(BytesToHex(bytes))
    ensures forall i :: 0 <= i < |bytes| ==> Pair(BytesToHex(bytes), i) == PaddedHex(bytes[i])
  {
    if bytes != [] {
      ByteRoundTrip(bytes[0]);
      BytesToHexAt(bytes[1..]);
      var first, rest := PaddedHex(bytes[0]), BytesToHex(bytes[1..]);
      assert BytesToHex(bytes) == first + rest && |first| == 2;
      forall i | 0 <= i < |bytes| ensures Pair(BytesToHex(bytes), i) == PaddedHex(bytes[i]) {
        PairAt(first, rest, i);
      }
    }
  }

  lemma PairAt(first: string, rest: string, i: nat)
    requires |first| == 2 && 2 * i + 2 <= |first + rest|
    ensures Pair(first + rest, i) == if i == 0 then first else Pair(rest, i - 1)
  {
  }

  /** `hexToBytes` undoes `bytesToHex` on every byte sequence. */
  lemma BytesRoundTrip(bytes: seq<Byte>)
    ensures FromHex(BytesToHex(bytes)) == bytes
  {
    BytesToHexAt(bytes);
    var hex := BytesToHex(bytes);
    forall i | 0 <= i < |bytes| ensures ByteOf(Pair(hex, i)) == bytes[i] {
      ByteRoundTrip(bytes[i]);
    }
  }

  lemma PairRoundTrip(pair: string)
    requires |pair| == 2 && IsLowerHex(pair)
    ensures PaddedHex(ByteOf(pair)) == pair
  {
    var hi, lo := pair[0], pair[1];
    assert pair == [hi, lo];
    ParsePair(hi, lo);
    var h, l := HexValue(hi).value, HexValue(lo).value;
    assert 0 <= h < 16 && 0 <= l < 16;
    assert (h * 16 + l) / 16 == h && (h * 16 + l) % 16 == l;
    assert HexDigit(h) == hi && HexDigit(l) == lo;
  }

  /** `bytesToHex` undoes `hexToBytes` exactly on the strings it can write itself. */
  lemma HexRoundTrip(hex: string)
    ensures BytesToHex(FromHex(hex)) == hex <==> IsLowerHex(hex)
  {
    var back := BytesToHex(FromHex(hex));
    BytesToHexAt(FromHex(hex));
    if IsLowerHex(hex) {
      forall p | 0 <= p < |hex| / 2 ensures Pair(back, p) == Pair(hex, p) {
        assert IsLowerHex(Pair(hex, p));
        PairRoundTrip(Pair(hex, p));
      }
      SamePairs(back, hex);
    }
  }

  lemma SamePairs(a: string, b: string)
    requires |a| == |b| && |a| % 2 == 0
    requires forall p :: 0 <= p < |a| / 2 ==> Pair(a, p) == Pair(b, p)
    ensures a == b
  {
    forall i | 0 <= i < |a| ensures a[i] == b[i] {
      var p := i / 2;
      assert Pair(a, p)[i - 2 * p] == Pair(b, p)[i - 2 * p];
    }
  }

  // ---------- commitment ----------

  function HashCommitment(sha: Sha256, seed: seq<Byte>, nonce: seq<Byte>): string {
    BytesToHex(sha(seed + nonce))
  }

  predicate VerifyProof(sha: Sha256, proof: HandProof) {
    HashCommitment(sha, FromHex(proof.seed), FromHex(proof.nonce)) == proof.commitment
  }

  /** What a proof reveals, as it is hashed: the seed followed by the nonce. */
  function Revealed(proof: HandProof): seq<Byte> {
    FromHex(proof.seed) + FromHex(proof.nonce)
  }

  ghost predicate Collide(sha: Sha256, a: seq<Byte>, b: seq<Byte>) {
    a != b && sha(a) == sha(b)
  }

  /**
   * Binding: unless the two are a collision of the hash, a second proof for the commitment
   * of an accepted one is accepted exactly when it reveals the same bytes - which are the
   * same seed and nonce exactly when they are cut at the same place.
   */
  lemma CommitmentBinds(sha: Sha256, p: HandProof, q: HandProof)
    requires VerifyProof(sha, p) && p.commitment == q.commitment && !Collide(sha, Revealed(p), Revealed(q))
    ensures VerifyProof(sha, q) <==> Revealed(p) == Revealed(q)
    ensures VerifyProof(sha, q) ==>
      (FromHex(p.seed) == FromHex(q.seed) && FromHex(p.nonce) == FromHex(q.nonce) <==> |p.seed| / 2 == |q.seed| / 2)
  {
    var ps, qs := FromHex(p.seed), FromHex(q.seed);
    BytesRoundTrip(sha(Revealed(p)));
    BytesRoundTrip(sha(Revealed(q)));
    assert ps == Revealed(p)[..|ps|] && qs == Revealed(q)[..|qs|];
    assert FromHex(p.nonce) == Revealed(p)[|ps|..] && FromHex(q.nonce) == Revealed(q)[|qs|..];
  }

  /** The seed is hashed before the nonce: a hash that keeps the first 32 bytes commits to a 32-byte seed. */
  lemma SeedHashedFirst(seed: seq<Byte>, nonce: seq<Byte>)
    requires |seed| == 32
    ensures var keep: Sha256 := (m: seq<Byte>) => if |m| >= 32 then m[..32] else seq(32, _ => 0);
      HashCommitment(keep, seed, nonce) == BytesToHex(seed)
  {
    assert (seed + nonce)[..32] == seed;
  }

  // ---------- the generator and the shuffle ----------

  /** `counter.toString()` in ASCII. */
  function Decimal(n: nat): seq<Byte> {
    if n < 10 then [48 + n] else Decimal(n / 10) + [48 + n % 10]
  }

  /** The first four bytes read as a signed 32-bit word. */
  function SignedWord(d: Digest): (w: int)
    ensures -0x8000_0000 <= w < 0x8000_0000
  {
    var u := d[0] as int * 0x100_0000 + d[1] as int * 0x1_0000 + d[2] as int * 0x100 + d[3] as int;
    if u < 0x8000_0000 then u else u - 0x1_0000_0000
  }

  /** The word behind the generator's draw number `counter`; the draw itself is this over 0xffffffff. */
  function PrngWord(sha: Sha256, seed: seq<Byte>, counter: nat): int {
    SignedWord(sha(seed + Decimal(counter)))
  }

  /** `floor(word / 0xffffffff * (i + 1))`, exactly. */
  function ScaledIndex(word: int, i: nat): int {
    word * (i + 1) / 0xffff_ffff
  }

  /** The indices a shuffle of `n` items swaps with: the one at position `i` is draw number n - 1 - i. */
  function Picks(sha: Sha256, seed: seq<Byte>, n: nat): int -> int {
    i => if 0 <= i < n then ScaledIndex(PrngWord(sha, seed, n - 1 - i), i) else 0
  }

  /** What ASCII digits write, read from the left. */
  function ReadDecimal(text: seq<Byte>): int {
    if text == [] then 0 else ReadDecimal(text[..|text| - 1]) * 10 + text[|text| - 1] as int - 48
  }

  /** Digits, without a leading zero unless there is just one. */
  ghost predicate IsDecimal(text: seq<Byte>) {
    && text != [] && (|text| > 1 ==> text[0] != 48)
    && forall k :: 0 <= k < |text| ==> 48 <= text[k] <= 57
  }

  lemma {:induction false} DecimalReads(n: nat)
    ensures IsDecimal(Decimal(n)) && ReadDecimal(Decimal(n)) == n && (n > 0 ==> Decimal(n)[0] != 48)
  {
    if n >= 10 {
      DecimalReads(n / 10);
      var front, text := Decimal(n / 10), Decimal(n);
      assert text[..|text| - 1] == front && text[|text| - 1] == 48 + n % 10;
    } else {
      assert Decimal(n)[..0] == [];
      assert ReadDecimal([]) == 0;
    }
  }

  /** Each draw hashes the seed followed by the number of the draw in decimal. */
  lemma WordOfDraw(sha: Sha256, seed: seq<Byte>, counter: nat) returns (text: seq<Byte>)
    ensures IsDecimal(text) && ReadDecimal(text) == counter
    ensures PrngWord(sha, seed, counter) == SignedWord(sha(seed + text))
  {
    text := Decimal(counter);
    DecimalReads(counter);
  }

  /** The word is the first four bytes of the digest, highest first, or that less 2 to the 32. */
  lemma WordOfDigest(d: Digest)
    ensures var v := ((d[0] as int * 0x100 + d[1] as int) * 0x100 + d[2] as int) * 0x100 + d[3] as int;
      && (SignedWord(d) == v || SignedWord(d) == v - 0x1_0000_0000)
      && (SignedWord(d) < 0 <==> d[0] >= 0x80)
  {
  }

  /** The index is the draw, as a fraction of 0xffffffff, of the places up to i, rounded down. */
  lemma IndexIsFloor(word: int, i: nat)
    ensures ScaledIndex(word, i) * 0xffff_ffff <= word * (i + 1) < (ScaledIndex(word, i) + 1) * 0xffff_ffff
  {
    var m := word * (i + 1);
    assert m / 0xffff_ffff * 0xffff_ffff <= m < (m / 0xffff_ffff + 1) * 0xffff_ffff;
  }

  /** A signed draw lands at or below the middle, and half of the draws land below zero. */
  lemma ScaledIndexRange(word: int, i: nat)
    requires -0x8000_0000 <= word < 0x8000_0000 && i > 0
    ensures -(i + 1) <= ScaledIndex(word, i) <= i
    ensures 2 * ScaledIndex(word, i) <= i + 1
    ensures ScaledIndex(word, i) < 0 <==> word < 0
  {
    var m := word * (i + 1);
    assert m <= 0x7fff_ffff * (i + 1);
    assert m >= -0x8000_0000 * (i + 1);
    assert ScaledIndex(word, i) * 0xffff_ffff <= m < (ScaledIndex(word, i) + 1) * 0xffff_ffff;
    assert word < 0 ==> m <= -(i + 1);
    assert word >= 0 ==> m >= 0;
  }

  /** The draws are used in turn, the first for the last position: its index is its share of the places there. */
  lemma DrawsInTurn(sha: Sha256, seed: seq<Byte>, n: nat, draw: nat)
    requires draw < n
    ensures var j, word := Picks(sha, seed, n)(n - 1 - draw), PrngWord(sha, seed, draw);
      j * 0xffff_ffff <= word * (n - draw) < (j + 1) * 0xffff_ffff
  {
    IndexIsFloor(PrngWord(sha, seed, draw), n - 1 - draw);
  }

  predicate ValidPicks(pick: int -> int, n: nat) {
    forall i :: 0 < i < n ==> pick(i) <= i
  }

  lemma PicksValid(sha: Sha256, seed: seq<Byte>, n: nat)
    ensures ValidPicks(Picks(sha, seed, n), n)
  {
    forall i | 0 < i < n ensures Picks(sha, seed, n)(i) <= i {
      ScaledIndexRange(PrngWord(sha, seed, n - 1 - i), i);
    }
  }

  /** A script array: any integer may be read or written; what was never written is undefined. */
  type Slots<T> = map<int, T>

  function Read<T>(arr: Slots<T>, k: int): Option<T> {
    if k in arr then Some(arr[k]) else None
  }

  function Write<T>(arr: Slots<T>, k: int, v: Option<T>): Slots<T> {
    if v.Some? then arr[k := v.value] else arr - {k}
  }

  function Swap<T>(arr: Slots<T>, i: int, j: int): Slots<T> {
    Write(Write(arr, i, Read(arr, j)), j, Read(arr, i))
  }

  function SlotsOf<T>(items: seq<T>): Slots<T> {
    map k: int | 0 <= k < |items| :: items[k]
  }

  function Entries<T>(arr: Slots<T>, n: nat): seq<Option<T>> {
    seq(n, k requires 0 <= k < n => Read(arr, k))
  }

  /** The swaps at positions i, i - 1, ..., 1. */
  function SwapDown<T>(arr: Slots<T>, i: nat, pick: int -> int): Slots<T>
    decreases i
  {
    if i == 0 then arr else SwapDown(Swap(arr, i, pick(i)), i - 1, pick)
  }

  function Shuffled<T>(items: seq<T>, pick: int -> int): (r: seq<Option<T>>)
    ensures |r| == |items|
  {
    Entries(SwapDown(SlotsOf(items), if items == [] then 0 else |items| - 1, pick), |items|)
  }

  method Shuffle<T>(items: seq<T>, sha: Sha256, seed: seq<Byte>) returns (r: seq<Option<T>>)
    ensures r == Shuffled(items, Picks(sha, seed, |items|))
  {
    hide Swap, SwapDown, SlotsOf, PrngWord, ScaledIndex, Entries;
    ghost var pick := Picks(sha, seed, |items|);
    var arr := SlotsOf(items);
    var i := |items| - 1;
    var counter := 0;
    while i > 0
      invariant i <= |items| - 1 && (items != [] ==> i >= 0)
      invariant counter == |items| - 1 - i
      invariant SwapDown(arr, if i < 0 then 0 else i, pick)
             == SwapDown(SlotsOf(items), if items == [] then 0 else |items| - 1, pick)
    {
      var j := ScaledIndex(PrngWord(sha, seed, counter), i);
      FirstSwap(arr, i, pick);
      arr := Swap(arr, i, j);
      counter := counter + 1;
      i := i - 1;
    }
    NoSwapLeft(arr, pick);
    r := Entries(arr, |items|);
  }

  lemma FirstSwap<T>(arr: Slots<T>, i: nat, pick: int -> int)
    requires i > 0
    ensures SwapDown(arr, i, pick) == SwapDown(Swap(arr, i, pick(i)), i - 1, pick)
  {
  }

  lemma NoSwapLeft<T>(arr: Slots<T>, pick: int -> int)
    ensures SwapDown(arr, 0, pick) == arr
  {
  }

  // ---------- what the shuffle keeps ----------

  ghost predicate Injective<T>(arr: Slots<T>) {
    forall a, b :: a in arr && b in arr && a != b ==> arr[a] != arr[b]
  }

  /** `arr` holds, slot by slot, what `items` holds at the index stored in `from`. */
  ghost predicate DrawnFrom<T>(arr: Slots<T>, from: Slots<int>, items: seq<T>) {
    && arr.Keys == from.Keys
    && forall k :: k in arr ==> 0 <= from[k] < |items| && arr[k] == items[from[k]]
  }

  lemma {:induction false} SwapDownTracks<T>(arr: Slots<T>, from: Slots<int>, items: seq<T>, i: nat, pick: int -> int)
    requires DrawnFrom(arr, from, items) && Injective(from)
    ensures DrawnFrom(SwapDown(arr, i, pick), SwapDown(from, i, pick), items)
    ensures Injective(SwapDown(from, i, pick))
    decreases i
  {
    if i > 0 {
      SwapDownTracks(Swap(arr, i, pick(i)), Swap(from, i, pick(i)), items, i - 1, pick);
    }
  }

  /** Slots above the current position are never touched again, provided no pick exceeds its position. */
  lemma {:induction false} SwapDownFrame<T>(arr: Slots<T>, i: nat, pick: int -> int)
    requires ValidPicks(pick, i + 1)
    ensures forall k :: k > i ==> Read(SwapDown(arr, i, pick), k) == Read(arr, k)
    decreases i
  {
    if i > 0 {
      SwapDownFrame(Swap(arr, i, pick(i)), i - 1, pick);
      var next := Swap(arr, i, pick(i));
      assert forall k :: k > i ==> Read(next, k) == Read(arr, k);
    }
  }

  /** A swap exchanges two slots, defined or not, and leaves the others alone. */
  lemma SwapReads<T>(arr: Slots<T>, i: int, j: int)
    ensures forall k :: Read(Swap(arr, i, j), k) == Read(arr, if k == i then j else if k == j then i else k)
  {
  }

  /** The entry at each position is what its pick found there when its turn came. */
  lemma EntryDrawn<T>(arr: Slots<T>, i: nat, pick: int -> int)
    requires i > 0 && ValidPicks(pick, i + 1)
    ensures Read(SwapDown(arr, i, pick), i) == Read(arr, pick(i))
  {
    SwapReads(arr, i, pick(i));
    SwapDownFrame(Swap(arr, i, pick(i)), i - 1, pick);
  }

  lemma {:induction false} SwapDownBeyond<T>(arr: Slots<T>, i: nat, pick: int -> int, last: int, v: T)
    requires last > i && ValidPicks(pick, i + 1)
    ensures SwapDown(arr[last := v], i, pick) == SwapDown(arr, i, pick)[last := v]
    decreases i
  {
    if i > 0 {
      assert Swap(arr[last := v], i, pick(i)) == Swap(arr, i, pick(i))[last := v];
      SwapDownBeyond(Swap(arr, i, pick(i)), i - 1, pick, last, v);
    }
  }

  /**
   * The shuffle, item by item. The last entry is the item at the index drawn for it, and is
   * undefined for a negative one. For an index that is not negative the last item takes the
   * place of the one drawn, and the rest is the shuffle of what is left by the other draws.
   */
  lemma ShuffleDraws<T>(items: seq<T>, pick: int -> int)
    requires |items| > 1 && ValidPicks(pick, |items|)
    ensures var last := |items| - 1;
      if pick(last) < 0 then Shuffled(items, pick)[last] == None
      else
        var left := if pick(last) == last then items[..last] else items[..last][pick(last) := items[last]];
        Shuffled(items, pick) == Shuffled(left, pick) + [Option.Some(items[pick(last)])]
  {
    hide Swap;
    var last := |items| - 1;
    var p := pick(last);
    EntryDrawn(SlotsOf(items), last, pick);
    if p >= 0 {
      var left := if p == last then items[..last] else items[..last][p := items[last]];
      SlotsAfterSwap(items, last, p, left);
      SwapDownBeyond(SlotsOf(left), last - 1, pick, last, items[p]);
      var done := SwapDown(SlotsOf(left), last - 1, pick);
      assert SwapDown(SlotsOf(items), last, pick) == done[last := items[p]];
      assert Entries(done[last := items[p]], last + 1) == Entries(done, last) + [Option.Some(items[p])];
    }
  }

  lemma SlotsAfterSwap<T>(items: seq<T>, last: nat, p: nat, left: seq<T>)
    requires last == |items| - 1 && p <= last
    requires left == if p == last then items[..last] else items[..last][p := items[last]]
    ensures Swap(SlotsOf(items), last, p) == SlotsOf(left)[last := items[p]]
  {
  }

  /** Non-negative picks only move values around inside the array. */
  lemma {:induction false} SwapDownInside<T>(arr: Slots<T>, i: nat, n: nat, pick: int -> int)
    requires i < n && ValidPicks(pick, i + 1)
    requires forall k :: k in arr <==> 0 <= k < n
    requires forall k :: 0 < k <= i ==> pick(k) >= 0
    ensures forall k :: k in SwapDown(arr, i, pick) <==> 0 <= k < n
    decreases i
  {
    if i > 0 {
      SwapDownInside(Swap(arr, i, pick(i)), i - 1, n, pick);
    }
  }

  /** The first negative pick empties the slot it is drawn for, for good. */
  lemma {:induction false} SwapDownHole<T>(arr: Slots<T>, i: nat, n: nat, pick: int -> int, bad: nat)
    requires 0 < bad <= i < n && ValidPicks(pick, i + 1)
    requires forall k :: k in arr <==> 0 <= k < n
    requires pick(bad) < 0 && forall k :: bad < k <= i ==> pick(k) >= 0
    ensures bad !in SwapDown(arr, i, pick)
    decreases i
  {
    var next := Swap(arr, i, pick(i));
    if i == bad {
      SwapDownFrame(next, i - 1, pick);
      assert Read(next, bad) == None;
    } else {
      SwapDownHole(next, i - 1, n, pick, bad);
    }
  }

  /** Where each entry of a shuffled list came from. */
  ghost predicate ComesFrom<T>(r: seq<Option<T>>, items: seq<T>, from: Slots<int>) {
    && (forall k :: 0 <= k < |r| ==> (r[k].Some? <==> k in from))
    && (forall k :: 0 <= k < |r| && k in from ==> 0 <= from[k] < |items| && r[k] == Some(items[from[k]]))
    && Injective(from)
  }

  /** Whatever is drawn, every defined entry is an item of the input, and no item is used twice. */
  lemma ShuffleDrawsItems<T>(items: seq<T>, pick: int -> int) returns (from: Slots<int>)
    ensures ComesFrom(Shuffled(items, pick), items, from)
  {
    var last := if items == [] then 0 else |items| - 1;
    var identity := SlotsOf(seq(|items|, k => k));
    SwapDownTracks(SlotsOf(items), identity, items, last, pick);
    from := SwapDown(identity, last, pick);
  }

  /** All entries are defined exactly when no index drawn was negative. */
  lemma ShuffleDefined<T>(items: seq<T>, pick: int -> int)
    requires ValidPicks(pick, |items|)
    ensures (forall k :: 0 <= k < |items| ==> Shuffled(items, pick)[k].Some?)
       <==> (forall i :: 0 < i < |items| ==> pick(i) >= 0)
  {
    if items != [] {
      var last := |items| - 1;
      if forall i :: 0 < i < |items| ==> pick(i) >= 0 {
        SwapDownInside(SlotsOf(items), last, |items|, pick);
      } else {
        var bad: nat := LastNegative(pick, |items|);
        SwapDownHole(SlotsOf(items), last, |items|, pick, bad);
        assert Shuffled(items, pick)[bad].None?;
      }
    }
  }

  lemma {:induction false} LastNegative(pick: int -> int, n: nat) returns (bad: nat)
    requires exists i :: 0 < i < n && pick(i) < 0
    ensures 0 < bad < n && pick(bad) < 0 && forall k :: bad < k < n ==> pick(k) >= 0
  {
    if pick(n - 1) < 0 && n > 1 {
      bad := n - 1;
    } else {
      bad := LastNegative(pick, n - 1);
    }
  }

  function Defined<T>(r: seq<Option<T>>): seq<T> {
    if r == [] then [] else (if r[0].Some? then [r[0].value] else []) + Defined(r[1..])
  }

  lemma {:induction false} DefinedAll<T>(r: seq<Option<T>>)
    requires forall k :: 0 <= k < |r| ==> r[k].Some?
    ensures |Defined(r)| == |r| && forall k :: 0 <= k < |r| ==> Defined(r)[k] == r[k].value
  {
    if r != [] {
      DefinedAll(r[1..]);
    }
  }

  lemma {:induction false} DefinedMembers<T>(r: seq<Option<T>>)
    ensures forall x :: x in Defined(r) <==> Some(x) in r
  {
    if r != [] {
      DefinedMembers(r[1..]);
      assert r == [r[0]] + r[1..];
    }
  }

  /** Pulling the elements at distinct indices out of a list cannot use any value more often than the list does. */
  lemma {:induction false} DrawnMultiset<T>(r: seq<Option<T>>, items: seq<T>, from: Slots<int>)
    requires ComesFrom(r, items, from)
    ensures multiset(Defined(r)) <= multiset(items)
  {
    if r != [] {
      var n := |r| - 1;
      DefinedAppend(r[..n], r[n..]);
      assert r == r[..n] + r[n..] && r[n..] == [r[n]] && r[n..][1..] == [];
      if n !in from {
        DrawnMultiset(r[..n], items, from);
        assert Defined(r[n..]) == [];
      } else {
        var at := from[n];
        var rest, shifted := WithoutDrawn(r, items, from);
        DrawnMultiset(r[..n], rest, shifted);
        WithoutMultiset(items, at);
        assert Defined(r[n..]) == [items[at]];
      }
    }
  }

  /** Taking the last entry away, with the item it came from, leaves the places of the others. */
  lemma WithoutDrawn<T>(r: seq<Option<T>>, items: seq<T>, from: Slots<int>) returns (rest: seq<T>, shifted: Slots<int>)
    requires r != [] && ComesFrom(r, items, from) && |r| - 1 in from
    ensures rest == Without(items, from[|r| - 1]) && ComesFrom(r[..|r| - 1], rest, shifted)
  {
    var n := |r| - 1;
    var at := from[n];
    rest := Without(items, at);
    shifted := map k | k in from && 0 <= k < n :: if from[k] < at then from[k] else from[k] - 1;
  }

  lemma {:induction false} DefinedAppend<T>(a: seq<Option<T>>, b: seq<Option<T>>)
    ensures Defined(a + b) == Defined(a) + Defined(b)
  {
    if a == [] {
      assert a + b == b;
    } else {
      DefinedAppend(a[1..], b);
      assert (a + b)[0] == a[0] && (a + b)[1..] == a[1..] + b;
    }
  }

  /**
   * The shuffle keeps the length, never uses an item more often than the input has it,
   * and is a permutation exactly when every drawn index was non-negative.
   */
  lemma ShuffleIsPartialPermutation<T>(items: seq<T>, pick: int -> int)
    requires ValidPicks(pick, |items|)
    ensures |Shuffled(items, pick)| == |items|
    ensures multiset(Defined(Shuffled(items, pick))) <= multiset(items)
    ensures multiset(Defined(Shuffled(items, pick))) == multiset(items)
       <==> (forall i :: 0 < i < |items| ==> pick(i) >= 0)
  {
    var r := Shuffled(items, pick);
    var from := ShuffleDrawsItems(items, pick);
    DrawnMultiset(r, items, from);
    ShuffleDefined(items, pick);
    assert |multiset(items)| == |items| && |multiset(Defined(r))| == |Defined(r)|;
    if forall k :: 0 <= k < |items| ==> r[k].Some? {
      DefinedAll(r);
      SameSize(multiset(Defined(r)), multiset(items));
    } else {
      DefinedShorter(r);
    }
  }

  lemma SameSize<T>(a: multiset<T>, b: multiset<T>)
    requires a <= b && |a| == |b|
    ensures a == b
  {
    assert b == a + (b - a);
  }

  lemma {:induction false} DefinedShorter<T>(r: seq<Option<T>>)
    ensures |Defined(r)| <= |r|
    ensures (exists k :: 0 <= k < |r| && r[k].None?) ==> |Defined(r)| < |r|
  {
    if r != [] {
      DefinedShorter(r[1..]);
      if r[0].Some? && exists k :: 0 <= k < |r| && r[k].None? {
        var k :| 0 <= k < |r| && r[k].None?;
        assert r[1..][k - 1].None?;
      }
    }
  }

  function StandardDeck(): (deck: seq<Card>)
    ensures |deck| == 52 && forall i :: 0 <= i < 52 ==> deck[i] == i
  {
    seq(52, i requires 0 <= i < 52 => i)
  }
}
