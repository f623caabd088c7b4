/** Password hashing: pbkdf2Key against section 5.2 of RFC 8018, over any
    pseudorandom function whose outputs have one size. */
module Pbkdf2 {
  import opened Arith
  import opened Net
  import opened Wrappers

  type PRF = (seq<byte>, seq<byte>) -> seq<byte>

  ghost predicate HasSize(prf: PRF, hLen: nat) {
    hLen > 0 && forall key, text :: |prf(key, text)| == hLen
  }

  // ----- The standard

  /** INT (i): a four-octet encoding of i, most significant octet first. */
  function Int4(i: nat): (b: seq<byte>)
    ensures |b| == 4
  {
    [(i / 0x100_0000 % 0x100) as byte, (i / 0x1_0000 % 0x100) as byte, (i / 0x100 % 0x100) as byte, (i % 0x100) as byte]
  }

  /** It does encode i, as long as i fits. */
  lemma Int4Encodes(i: nat)
    requires i < 0x1_0000_0000
    ensures var b := Int4(i);
            b[0] as int * 0x100_0000 + b[1] as int * 0x1_0000 + b[2] as int * 0x100 + b[3] as int == i
  {
    ByteOfNat(i / 0x100_0000 % 0x100);
    ByteOfNat(i / 0x1_0000 % 0x100);
    ByteOfNat(i / 0x100 % 0x100);
    ByteOfNat(i % 0x100);
    Octets(i);
    var b := Int4(i);
    assert b[0] as int == i / 0x100_0000 % 0x100 && b[1] as int == i / 0x1_0000 % 0x100;
    assert b[2] as int == i / 0x100 % 0x100 && b[3] as int == i % 0x100;
  }

  lemma Octets(i: nat)
    requires i < 0x1_0000_0000
    ensures i / 0x100_0000 % 0x100 * 0x100_0000 + i / 0x1_0000 % 0x100 * 0x1_0000 + i / 0x100 % 0x100 * 0x100
              + i % 0x100 == i
  {
    var a := i / 0x100;
    var b := a / 0x100;
    assert i / 0x1_0000 == b && i / 0x100_0000 == b / 0x100;
  }

  /** U_j for block i. */
  function U(prf: PRF, password: seq<byte>, salt: seq<byte>, i: nat, j: nat): seq<byte>
    requires j >= 1
  {
    prf(password, if j == 1 then salt + Int4(i) else U(prf, password, salt, i, j - 1))
  }

  /** F: the exclusive-or of U_1 to U_c. */
  ghost function F(prf: PRF, hLen: nat, password: seq<byte>, salt: seq<byte>, c: nat, i: nat): (t: seq<byte>)
    requires HasSize(prf, hLen) && c >= 1
    ensures |t| == hLen
  {
    if c == 1 then U(prf, password, salt, i, 1)
    else XorBytes(F(prf, hLen, password, salt, c - 1, i), U(prf, password, salt, i, c))
  }

  /** T_1 to T_l, concatenated. */
  ghost function Blocks(prf: PRF, hLen: nat, password: seq<byte>, salt: seq<byte>, c: nat, l: nat): (t: seq<byte>)
    requires HasSize(prf, hLen) && c >= 1
    ensures |t| == l * hLen
  {
    if l == 0 then []
    else
      assert l * hLen == (l - 1) * hLen + hLen;
      Blocks(prf, hLen, password, salt, c, l - 1) + F(prf, hLen, password, salt, c, l)
  }

  /** DK: the first dkLen octets of enough blocks. */
  ghost function DerivedKey(prf: PRF, hLen: nat, password: seq<byte>, salt: seq<byte>, c: nat, dkLen: nat)
    : (dk: seq<byte>)
    requires HasSize(prf, hLen) && c >= 1
    ensures |dk| == dkLen
  {
    Blocks(prf, hLen, password, salt, c, CeilDiv(dkLen, hLen))[..dkLen]
  }

  lemma FirstIteration(prf: PRF, hLen: nat, password: seq<byte>, salt: seq<byte>, i: nat)
    requires HasSize(prf, hLen)
    ensures U(prf, password, salt, i, 1) == prf(password, salt + Int4(i))
    ensures F(prf, hLen, password, salt, 1, i) == U(prf, password, salt, i, 1)
  {
  }

  lemma NextIteration(prf: PRF, hLen: nat, password: seq<byte>, salt: seq<byte>, c: nat, i: nat)
    requires HasSize(prf, hLen) && c >= 1
    ensures U(prf, password, salt, i, c + 1) == prf(password, U(prf, password, salt, i, c))
    ensures F(prf, hLen, password, salt, c + 1, i) ==
            XorBytes(F(prf, hLen, password, salt, c, i), U(prf, password, salt, i, c + 1))
  {
  }

  lemma NextBlock(prf: PRF, hLen: nat, password: seq<byte>, salt: seq<byte>, c: nat, l: nat)
    requires HasSize(prf, hLen) && c >= 1 && l >= 1
    ensures Blocks(prf, hLen, password, salt, c, l) ==
            Blocks(prf, hLen, password, salt, c, l - 1) + F(prf, hLen, password, salt, c, l)
  {
  }

  lemma NoBlocks(prf: PRF, hLen: nat, password: seq<byte>, salt: seq<byte>, c: nat)
    requires HasSize(prf, hLen) && c >= 1
    ensures Blocks(prf, hLen, password, salt, c, 0) == []
  {
  }

  // ----- The code

  function Iterations(iter: int): (c: nat)
    ensures c >= 1 && (if iter >= 1 then c == iter else c == 1)
  {
    if iter < 1 then 1 else iter
  }

  /** pbkdf2Key: the loop over the blocks. */
  method Pbkdf2Key(password: seq<byte>, salt: seq<byte>, iter: int, keyLen: nat, prf: PRF, hashLen: nat)
    returns (key: seq<byte>)
    requires HasSize(prf, hashLen)
    ensures key == DerivedKey(prf, hashLen, password, salt, Iterations(iter), keyLen)
  {
    var blocks := (keyLen + hashLen - 1) / hashLen;
    assert blocks == CeilDiv(keyLen, hashLen);
    hide F, Blocks, CeilDiv;
    var out := [];
    NoBlocks(prf, hashLen, password, salt, Iterations(iter));
    var counter := new byte[4];
    for block := 1 to blocks + 1
      invariant out == Blocks(prf, hashLen, password, salt, Iterations(iter), block - 1)
    {
      PutCounter(counter, block);
      var t := DeriveBlock(password, salt, iter, block, counter[..], prf, hashLen);
      NextBlock(prf, hashLen, password, salt, Iterations(iter), block);
      out := out + t;
    }
    return out[..keyLen];
  }

  /** The body of that loop: t accumulates the exclusive-or in place. */
  method DeriveBlock(password: seq<byte>, salt: seq<byte>, iter: int, ghost block: nat, counter: seq<byte>,
                     prf: PRF, hashLen: nat)
    returns (key: seq<byte>)
    requires HasSize(prf, hashLen) && counter == Int4(block)
    ensures key == F(prf, hashLen, password, salt, Iterations(iter), block)
  {
    FirstIteration(prf, hashLen, password, salt, block);
    hide U, F, Int4, XorBytes;
    var u := prf(password, salt + counter);
    var t := new byte[|u|](j requires 0 <= j < |u| => u[j]);
    assert t[..] == u;
    var i := 1;
    while i < iter
      invariant 1 <= i <= Iterations(iter)
      invariant t.Length == hashLen
      invariant u == U(prf, password, salt, block, i)
      invariant t[..] == F(prf, hashLen, password, salt, i, block)
    {
      NextIteration(prf, hashLen, password, salt, i, block);
      u := prf(password, u);
      XorInto(t, u);
      i := i + 1;
    }
    return t[..];
  }

  /** The four assignments to the counter bytes. */
  method PutCounter(counter: array<byte>, block: nat)
    requires counter.Length == 4
    modifies counter
    ensures counter[..] == Int4(block)
  {
    counter[0] := (block / 0x100_0000 % 0x100) as byte;
    counter[1] := (block / 0x1_0000 % 0x100) as byte;
    counter[2] := (block / 0x100 % 0x100) as byte;
    counter[3] := (block % 0x100) as byte;
  }

  // ----- Shorter keys

  lemma {:induction false} MoreBlocksExtend(prf: PRF, hLen: nat, password: seq<byte>, salt: seq<byte>, c: nat,
                                            l: nat, m: nat)
    requires HasSize(prf, hLen) && c >= 1 && l <= m
    ensures Blocks(prf, hLen, password, salt, c, l) <= Blocks(prf, hLen, password, salt, c, m)
  {
    if l < m {
      MoreBlocksExtend(prf, hLen, password, salt, c, l, m - 1);
    }
  }

  /** A shorter key is a prefix of a longer one from the same inputs. */
  lemma ShorterKeyIsPrefix(prf: PRF, hLen: nat, password: seq<byte>, salt: seq<byte>, c: nat, n: nat, m: nat)
    requires HasSize(prf, hLen) && c >= 1 && n <= m
    ensures DerivedKey(prf, hLen, password, salt, c, n) == DerivedKey(prf, hLen, password, salt, c, m)[..n]
  {
    var l, k := CeilDiv(n, hLen), CeilDiv(m, hLen);
    CeilDivMonotone(n, m, hLen);
    MoreBlocksExtend(prf, hLen, password, salt, c, l, k);
  }

  // ----- Credentials

  const PASSWORD_ITERATIONS := 120000
  const KEY_SIZE := 32

  /** An administrator's credential, its salt and hash in base64, and when the
      password was set. */
  datatype Credential = Credential(username: string, salt: string, hash: string, iterations: int, lastPassword: Time) {
    predicate Complete() {
      username != "" && salt != "" && hash != ""
    }
  }

  /** The base64 codec. */
  datatype Codec = Codec(encode: seq<byte> -> string, decode: string -> Option<seq<byte>>) {
    ghost predicate RoundTrips() {
      && (forall b :: decode(encode(b)) == Some(b))
      && (forall b :: b != [] ==> encode(b) != "")
    }
  }

  datatype CredentialError = NoUsername | NoPassword

  /** NewAdminCredential, given the random salt. */
  method NewAdminCredential(username: string, password: seq<byte>, salt: seq<byte>, codec: Codec,
                            prf: PRF, hashLen: nat)
    returns (r: Result<Credential, CredentialError>)
    requires HasSize(prf, hashLen)
    ensures username == "" ==> r == Err(NoUsername)
    ensures username != "" && password == [] ==> r == Err(NoPassword)
    ensures username != "" && password != [] ==>
      var hash := DerivedKey(prf, hashLen, password, salt, 120000, 32);
      r == Ok(Credential(username, codec.encode(salt), codec.encode(hash), 120000, 0))
  {
    if username == "" {
      return Err(NoUsername);
    }
    if password == [] {
      return Err(NoPassword);
    }
    var hash := Pbkdf2Key(password, salt, PASSWORD_ITERATIONS, KEY_SIZE, prf, hashLen);
    return Ok(Credential(username, codec.encode(salt), codec.encode(hash), PASSWORD_ITERATIONS, 0));
  }

  /** CheckPassword, as a condition. */
  ghost predicate PasswordMatches(cred: Credential, username: string, password: seq<byte>, codec: Codec,
                                  prf: PRF, hashLen: nat)
    requires HasSize(prf, hashLen)
  {
    && username == cred.username && password != [] && cred.salt != "" && cred.hash != ""
    && codec.decode(cred.salt).Some? && codec.decode(cred.hash).Some?
    && var expected := codec.decode(cred.hash).value;
       DerivedKey(prf, hashLen, password, codec.decode(cred.salt).value,
                  if cred.iterations <= 0 then 120000 else cred.iterations, |expected|) == expected
  }

  /** CheckPassword */
  method CheckPassword(cred: Credential, username: string, password: seq<byte>, codec: Codec, prf: PRF, hashLen: nat)
    returns (ok: bool)
    requires HasSize(prf, hashLen)
    ensures ok <==> PasswordMatches(cred, username, password, codec, prf, hashLen)
  {
    if username != cred.username || password == [] || cred.salt == "" || cred.hash == "" {
      return false;
    }
    var salt := codec.decode(cred.salt);
    if salt.None? {
      return false;
    }
    var expected := codec.decode(cred.hash);
    if expected.None? {
      return false;
    }
    var iterations := cred.iterations;
    if iterations <= 0 {
      iterations := PASSWORD_ITERATIONS;
    }
    var actual := Pbkdf2Key(password, salt.value, iterations, |expected.value|, prf, hashLen);
    return actual == expected.value;
  }

  /** A new credential accepts exactly its own name with the passwords whose key
      equals that of its own password; in particular its own password. */
  lemma NewCredentialAccepts(username: string, password: seq<byte>, salt: seq<byte>, name: string, guess: seq<byte>,
                             codec: Codec, prf: PRF, hashLen: nat)
    requires HasSize(prf, hashLen) && codec.RoundTrips()
    requires username != "" && password != [] && salt != []
    ensures var hash := DerivedKey(prf, hashLen, password, salt, PASSWORD_ITERATIONS, KEY_SIZE);
            var cred := Credential(username, codec.encode(salt), codec.encode(hash), PASSWORD_ITERATIONS, 0);
            PasswordMatches(cred, name, guess, codec, prf, hashLen) <==>
            name == username && guess != [] &&
            DerivedKey(prf, hashLen, guess, salt, PASSWORD_ITERATIONS, KEY_SIZE) == hash
  {
  }
}
