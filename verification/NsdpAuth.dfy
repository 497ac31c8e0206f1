/** NSDP write authentication (nsdp/auth.go). Passwords are Go strings: bytes. */
module NsdpAuth {
  import opened Prelude
  import opened Bits
  import opened NsdpCodec

  const TAG_PASSWORD: U16 := 0x000A
  const TAG_AUTH_V2_ENCPASS: U16 := 0x0014
  const TAG_AUTH_V2_SALT: U16 := 0x0017
  const TAG_AUTH_V2_PASSWORD: U16 := 0x001A

  const ENCPASS_V1: Byte := 0x01
  const ENCPASS_V2: Byte := 0x10

  /** "NtgrSmartSwitchRock" */
  const V1_KEY: Bytes :=
    [0x4E, 0x74, 0x67, 0x72, 0x53, 0x6D, 0x61, 0x72, 0x74, 0x53,
     0x77, 0x69, 0x74, 0x63, 0x68, 0x52, 0x6F, 0x63, 0x6B]

  datatype AuthError = NotAscii | BadSaltLength | BadMacLength

  predicate IsAscii(s: Bytes) {
    forall i :: 0 <= i < |s| ==> s[i] < 0x80
  }

  // ------------------------------------------------------------------
  // Version 1: a repeating XOR
  // ------------------------------------------------------------------

  function XorKey(password: Bytes): (r: Bytes)
    ensures |r| == |password|
  {
    seq(|password|, i requires 0 <= i < |password| => XorByte(password[i], V1_KEY[i % |V1_KEY|]))
  }

  /** EncodePasswordV1. */
  method EncodePasswordV1(password: Bytes) returns (r: Result<Bytes, AuthError>)
    ensures r == if IsAscii(password) then Ok(XorKey(password)) else Err(NotAscii)
  {
    for i := 0 to |password|
      invariant IsAscii(password[..i])
    {
      if password[i] >= 0x80 {
        return Err(NotAscii);
      }
    }
    assert password[..|password|] == password;
    var out := new Byte[|password|](_ => 0);
    for i := 0 to |password|
      invariant forall j :: 0 <= j < i ==> out[j] == XorByte(password[j], V1_KEY[j % |V1_KEY|])
    {
      out[i] := XorByte(password[i], V1_KEY[i % |V1_KEY|]);
    }
    assert out[..] == XorKey(password);
    r := Ok(out[..]);
  }

  /** The encoding is its own inverse, so no two passwords share one. */
  lemma {:induction false} XorKeyTwice(password: Bytes)
    ensures XorKey(XorKey(password)) == password
  {
    forall i | 0 <= i < |password| ensures XorKey(XorKey(password))[i] == password[i] {
      XorTwice(password[i], V1_KEY[i % |V1_KEY|]);
    }
  }

  // ------------------------------------------------------------------
  // Scheme detection
  // ------------------------------------------------------------------

  const WORD: nat := 0x1_0000_0000_0000_0000

  /** The number the last k bytes spell, most significant first. */
  function Low(value: Bytes, k: nat): nat {
    if value == [] || k == 0 then 0
    else Low(value[..|value| - 1], k - 1) * 0x100 + value[|value| - 1] as int
  }

  /** EncpassIsV2: the accumulator is a uint64, and shifts bytes out of its top. */
  method EncpassIsV2(value: Bytes) returns (v2: bool)
    ensures v2 <==> AdvertisesV2(value)
  {
    if |value| == 0 {
      return false;
    }
    var n := 0;
    for i := 0 to |value|
      invariant n == Low(value[..i], 8)
    {
      ShiftIn(value[..i], value[i]);
      assert value[..i + 1] == value[..i] + [value[i]];
      n := (n * 0x100 + value[i] as int) % WORD;
    }
    assert value[..|value|] == value;
    LowZero(value[..|value| - 1], 7);
    assert forall i :: 0 <= i < |value| - 1 ==> value[..|value| - 1][i] == value[i];
    v2 := n == ENCPASS_V2 as int;
  }

  /** The value ends in 0x10, and the seven bytes before it, or as many as there are,
      are zero. Anything further to the left is ignored. */
  predicate AdvertisesV2(value: Bytes) {
    && value != []
    && value[|value| - 1] == ENCPASS_V2
    && forall i :: 0 <= i < |value| - 1 && |value| - 8 <= i ==> value[i] == 0
  }

  lemma {:induction false} LowZero(s: Bytes, k: nat)
    ensures Low(s, k) == 0 <==> forall i :: 0 <= i < |s| && |s| - k <= i ==> s[i] == 0
  {
    if k > 0 && s != [] {
      var rest := s[..|s| - 1];
      LowZero(rest, k - 1);
      assert forall i :: 0 <= i < |s| - 1 ==> rest[i] == s[i];
    }
  }

  function Pow256(k: nat): nat {
    if k == 0 then 1 else 0x100 * Pow256(k - 1)
  }

  lemma {:induction false} LowBound(s: Bytes, k: nat)
    ensures Low(s, k) < Pow256(k)
  {
    if k > 0 && s != [] {
      LowBound(s[..|s| - 1], k - 1);
    } else if k > 0 {
      LowBound(s, k - 1);
    }
  }

  /** One byte more is a digit more at the top. */
  lemma {:induction false} LowTop(s: Bytes, k: nat) returns (top: Byte)
    ensures Low(s, k + 1) == top as int * Pow256(k) + Low(s, k)
  {
    if s == [] {
      top := 0;
    } else if k == 0 {
      top := s[|s| - 1];
    } else {
      top := LowTop(s[..|s| - 1], k - 1);
      Scale(top, Pow256(k - 1));
    }
  }

  lemma {:induction false} Scale(top: nat, p: nat)
    ensures top * (0x100 * p) == top * p * 0x100
  {
  }

  lemma {:induction false} ShiftIn(s: Bytes, b: Byte)
    ensures (Low(s, 8) * 0x100 + b as int) % WORD == Low(s + [b], 8)
  {
    var top := LowTop(s, 7);
    LowBound(s, 7);
    assert Pow256(7) == 0x100_0000_0000_0000 by {
      assert Pow256(4) == 0x1_0000_0000;
    }
    assert (s + [b])[..|s|] == s;
    assert Low(s, 8) * 0x100 + b as int == top as int * WORD + Low(s + [b], 8);
  }

  // ------------------------------------------------------------------
  // Version 2: a salted token
  // ------------------------------------------------------------------

  const KEY_SIZE: nat := 20

  /** The first 20 bytes of the password, zero-padded. */
  function Key(password: Bytes): (k: Bytes)
    ensures |k| == KEY_SIZE
  {
    if |password| > KEY_SIZE then password[..KEY_SIZE]
    else password + Zeros(KEY_SIZE - |password|)
  }

  /** All of them XORed together. */
  function XorAll(t: Bytes): Byte {
    if t == [] then 0 else XorByte(XorAll(t[..|t| - 1]), t[|t| - 1])
  }

  /** What byte i of the token is made of. */
  function Terms(k: Bytes, s: Bytes, m: Bytes, i: nat): (t: Bytes)
    requires |k| == KEY_SIZE && |m| == MAC_SIZE && |s| == 4 && i < 8
    ensures |t| == 7
  {
    match i
    case 0 => [s[3], s[2], m[1], m[5], k[0], k[1], k[2]]
    case 1 => [s[3], s[1], m[4], m[0], k[3], k[4], k[5]]
    case 2 => [s[0], s[2], m[3], m[2], k[6], k[7], k[8]]
    case 3 => [s[0], s[1], m[4], m[5], k[9], k[10], k[11]]
    case 4 => [s[3], s[2], m[1], m[5], k[12], k[13], k[14]]
    case 5 => [s[3], s[1], m[4], m[0], k[15], k[16], k[17]]
    case 6 => [s[0], s[2], m[3], m[2], k[18], k[19], k[0]]
    case _ => [s[0], s[1], m[4], m[5], k[1], k[3], k[5]]
  }

  function Token(password: Bytes, mac: Bytes, salt: Bytes): (t: Bytes)
    requires |mac| == MAC_SIZE && |salt| == 4
    ensures |t| == 8
  {
    seq(8, i requires 0 <= i < 8 => XorAll(Terms(Key(password), salt, mac, i)))
  }

  /** AuthV2Password. */
  function AuthV2Password(password: Bytes, mac: Bytes, salt: Bytes): Result<Bytes, AuthError> {
    if |salt| != 4 then Err(BadSaltLength)
    else if |mac| != MAC_SIZE then Err(BadMacLength)
    else if !IsAscii(password) then Err(NotAscii)
    else Ok(Token(password, mac, salt))
  }

  // ------------------------------------------------------------------
  // What the token depends on
  // ------------------------------------------------------------------

  /** Which bytes of the token a byte of the salt, the MAC and the key reaches. */
  const SALT_REACH: seq<set<nat>> := [{2, 3, 6, 7}, {1, 3, 5, 7}, {0, 2, 4, 6}, {0, 1, 4, 5}]
  const MAC_REACH: seq<set<nat>> := [{1, 5}, {0, 4}, {2, 6}, {2, 6}, {1, 3, 5, 7}, {0, 3, 4, 7}]
  const KEY_REACH: seq<set<nat>> :=
    [{0, 6}, {0, 7}, {0}, {1, 7}, {1}, {1, 7}, {2}, {2}, {2}, {3},
     {3}, {3}, {4}, {4}, {4}, {5}, {5}, {5}, {6}, {6}]

  /** One list of bytes is another with x folded into some of them. */
  ghost predicate Shifted(t: Bytes, u: Bytes, places: set<nat>, x: Byte) {
    |u| == |t| && forall i :: 0 <= i < |t| ==> u[i] == if i in places then XorByte(t[i], x) else t[i]
  }

  /** In one place of a list, a byte gives way to another. */
  ghost predicate Replaced(t: Bytes, u: Bytes, was: Byte, now: Byte) {
    exists p :: 0 <= p < |t| && t[p] == was && u == t[p := now]
  }

  lemma {:induction false} ReplacedAt(t: Bytes, u: Bytes, p: nat, was: Byte, now: Byte)
    requires p < |t| && t[p] == was && u == t[p := now]
    ensures Replaced(t, u, was, now)
  {
  }

  lemma {:induction false} XorAllShift(t: Bytes, p: nat, x: Byte)
    requires p < |t|
    ensures XorAll(t[p := XorByte(t[p], x)]) == XorByte(XorAll(t), x)
  {
    var n, u := |t| - 1, t[p := XorByte(t[p], x)];
    XorByteShift(XorAll(t[..n]), t[n], x);
    if p < n {
      XorAllShift(t[..n], p, x);
      assert u[..n] == t[..n][p := XorByte(t[..n][p], x)];
    } else {
      assert u[..n] == t[..n];
    }
  }

  lemma {:induction false} ReplacedShift(t: Bytes, u: Bytes, b: Byte, x: Byte)
    requires Replaced(t, u, b, XorByte(b, x))
    ensures XorAll(u) == XorByte(XorAll(t), x)
  {
    var p :| 0 <= p < |t| && t[p] == b && u == t[p := XorByte(b, x)];
    XorAllShift(t, p, x);
  }

  /** A byte of the salt is one of the terms of the token bytes it reaches, and of no
      others. */
  lemma {:induction false} SaltTerms(k: Bytes, s: Bytes, m: Bytes, i: nat, j: nat, b: Byte)
    requires |k| == KEY_SIZE && |m| == MAC_SIZE && |s| == 4 && i < 8 && j < 4
    ensures var t, u := Terms(k, s, m, i), Terms(k, s[j := b], m, i);
            if i in SALT_REACH[j] then Replaced(t, u, s[j], b) else u == t
  {
    var t, u := Terms(k, s, m, i), Terms(k, s[j := b], m, i);
    if i in SALT_REACH[j] {
      ReplacedAt(t, u, if u == t[0 := b] && t[0] == s[j] then 0 else 1, s[j], b);
    }
  }

  lemma {:induction false} MacTerms(k: Bytes, s: Bytes, m: Bytes, i: nat, j: nat, b: Byte)
    requires |k| == KEY_SIZE && |m| == MAC_SIZE && |s| == 4 && i < 8 && j < MAC_SIZE
    ensures var t, u := Terms(k, s, m, i), Terms(k, s, m[j := b], i);
            if i in MAC_REACH[j] then Replaced(t, u, m[j], b) else u == t
  {
    var t, u := Terms(k, s, m, i), Terms(k, s, m[j := b], i);
    if i in MAC_REACH[j] {
      ReplacedAt(t, u, if u == t[2 := b] && t[2] == m[j] then 2 else 3, m[j], b);
    }
  }

  lemma {:induction false} KeyTerms(k: Bytes, s: Bytes, m: Bytes, i: nat, j: nat, b: Byte)
    requires |k| == KEY_SIZE && |m| == MAC_SIZE && |s| == 4 && i < 8 && j < KEY_SIZE
    ensures var t, u := Terms(k, s, m, i), Terms(k[j := b], s, m, i);
            if i in KEY_REACH[j] then Replaced(t, u, k[j], b) else u == t
  {
    var t, u := Terms(k, s, m, i), Terms(k[j := b], s, m, i);
    if i in KEY_REACH[j] {
      var p := if u == t[4 := b] && t[4] == k[j] then 4 else if u == t[5 := b] && t[5] == k[j] then 5 else 6;
      ReplacedAt(t, u, p, k[j], b);
    }
  }

  /** Folding x into a byte of the salt folds x into the token bytes it reaches, and
      changes no other. */
  lemma {:induction false} SaltReaches(password: Bytes, mac: Bytes, salt: Bytes, j: nat, x: Byte)
    requires |mac| == MAC_SIZE && |salt| == 4 && j < 4
    ensures Shifted(Token(password, mac, salt), Token(password, mac, salt[j := XorByte(salt[j], x)]), SALT_REACH[j], x)
  {
    forall i | 0 <= i < 8
      ensures var t, u := Terms(Key(password), salt, mac, i), Terms(Key(password), salt[j := XorByte(salt[j], x)], mac, i);
              XorAll(u) == if i in SALT_REACH[j] then XorByte(XorAll(t), x) else XorAll(t)
    {
      var u := Terms(Key(password), salt[j := XorByte(salt[j], x)], mac, i);
      SaltTerms(Key(password), salt, mac, i, j, XorByte(salt[j], x));
      if i in SALT_REACH[j] {
        ReplacedShift(Terms(Key(password), salt, mac, i), u, salt[j], x);
      }
    }
  }

  /** The same for a byte of the MAC. */
  lemma {:induction false} MacReaches(password: Bytes, mac: Bytes, salt: Bytes, j: nat, x: Byte)
    requires |mac| == MAC_SIZE && |salt| == 4 && j < MAC_SIZE
    ensures Shifted(Token(password, mac, salt), Token(password, mac[j := XorByte(mac[j], x)], salt), MAC_REACH[j], x)
  {
    forall i | 0 <= i < 8
      ensures var t, u := Terms(Key(password), salt, mac, i), Terms(Key(password), salt, mac[j := XorByte(mac[j], x)], i);
              XorAll(u) == if i in MAC_REACH[j] then XorByte(XorAll(t), x) else XorAll(t)
    {
      var u := Terms(Key(password), salt, mac[j := XorByte(mac[j], x)], i);
      MacTerms(Key(password), salt, mac, i, j, XorByte(mac[j], x));
      if i in MAC_REACH[j] {
        ReplacedShift(Terms(Key(password), salt, mac, i), u, mac[j], x);
      }
    }
  }

  /** And for a byte of the password, of which the first twenty matter. */
  lemma {:induction false} PasswordReaches(password: Bytes, mac: Bytes, salt: Bytes, j: nat, x: Byte)
    requires |mac| == MAC_SIZE && |salt| == 4 && j < |password|
    ensures Shifted(Token(password, mac, salt), Token(password[j := XorByte(password[j], x)], mac, salt),
                    if j < KEY_SIZE then KEY_REACH[j] else {}, x)
  {
    var k, l := Key(password), Key(password[j := XorByte(password[j], x)]);
    if j < KEY_SIZE {
      assert l == k[j := XorByte(k[j], x)];
      forall i | 0 <= i < 8
        ensures XorAll(Terms(l, salt, mac, i))
                == if i in KEY_REACH[j] then XorByte(XorAll(Terms(k, salt, mac, i)), x) else XorAll(Terms(k, salt, mac, i))
      {
        KeyTerms(k, salt, mac, i, j, XorByte(k[j], x));
        if i in KEY_REACH[j] {
          ReplacedShift(Terms(k, salt, mac, i), Terms(l, salt, mac, i), k[j], x);
        }
      }
    } else {
      assert l == k;
    }
  }

  /** A shorter password is one padded with zeros. */
  lemma {:induction false} PaddingIsZero(password: Bytes, mac: Bytes, salt: Bytes)
    requires |mac| == MAC_SIZE && |salt| == 4
    ensures Token(password + [0], mac, salt) == Token(password, mac, salt)
  {
    assert Key(password + [0]) == Key(password);
  }

  lemma {:induction false} XorAllZeros(n: nat)
    ensures XorAll(Zeros(n)) == 0
  {
    if n > 0 {
      assert Zeros(n)[..n - 1] == Zeros(n - 1);
      XorAllZeros(n - 1);
      XorZero(0);
    }
  }

  /** Nothing comes of nothing. With the reaches above, this leaves no freedom: they
      lead from it to the token of any password, MAC and salt. */
  lemma {:induction false} ZeroToken()
    ensures Token([], Zeros(MAC_SIZE), Zeros(4)) == Zeros(8)
  {
    assert Key([]) == Zeros(KEY_SIZE);
    forall i | 0 <= i < 8 ensures XorAll(Terms(Zeros(KEY_SIZE), Zeros(4), Zeros(MAC_SIZE), i)) == 0 {
      assert Terms(Zeros(KEY_SIZE), Zeros(4), Zeros(MAC_SIZE), i) == Zeros(7);
      XorAllZeros(7);
    }
  }
}
