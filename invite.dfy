/**
 * Invite-code generation (backend/src/services/invite.service.ts): up to five
 * attempts, each drawing 8 random bytes, encoding them in base64url (section 5 of
 * RFC 4648, without padding), keeping the first 8 characters and looking the code
 * up in the invites table; the first code not already there is returned.
 * The random source is the sequence `draws` of the byte strings it yields.
 */
module InviteService {
  import opened Wrappers
  import opened AppErrors
  import opened Store

  const MaxAttempts: nat := 5
  const CodeLength: nat := 8
  const RandomByteCount: nat := 8

  type byte = x: int | 0 <= x < 256

  /** One draw of `crypto.randomBytes(8)`. */
  type Draw = s: seq<byte> | |s| == RandomByteCount witness [0, 0, 0, 0, 0, 0, 0, 0]

  /** The base64url alphabet, Table 2 of RFC 4648: A-Z, a-z, 0-9, '-', '_'. */
  function SextetChar(n: int): (c: char)
    requires 0 <= n < 64
  {
    if n < 26 then ('A' as int + n) as char
    else if n < 52 then ('a' as int + (n - 26)) as char
    else if n < 62 then ('0' as int + (n - 52)) as char
    else if n == 62 then '-'
    else '_'
  }

  predicate IsBase64UrlChar(c: char) {
    ('A' <= c <= 'Z') || ('a' <= c <= 'z') || ('0' <= c <= '9') || c == '-' || c == '_'
  }

  /** The value of an alphabet character; the inverse of SextetChar. */
  function SextetValue(c: char): (n: int)
    requires IsBase64UrlChar(c)
    ensures 0 <= n < 64 && SextetChar(n) == c
  {
    if 'A' <= c <= 'Z' then c as int - 'A' as int
    else if 'a' <= c <= 'z' then c as int - 'a' as int + 26
    else if '0' <= c <= '9' then c as int - '0' as int + 52
    else if c == '-' then 62
    else 63
  }

  lemma SextetCharInAlphabet(n: int)
    requires 0 <= n < 64
    ensures IsBase64UrlChar(SextetChar(n)) && SextetValue(SextetChar(n)) == n
  {
  }

  /** Three bytes as four characters. */
  function EncodeGroup(b0: byte, b1: byte, b2: byte): (s: string)
    ensures |s| == 4 && forall i :: 0 <= i < 4 ==> IsBase64UrlChar(s[i])
  {
    SextetCharInAlphabet(b0 / 4);
    SextetCharInAlphabet((b0 % 4) * 16 + b1 / 16);
    SextetCharInAlphabet((b1 % 16) * 4 + b2 / 64);
    SextetCharInAlphabet(b2 % 64);
    [SextetChar(b0 / 4), SextetChar((b0 % 4) * 16 + b1 / 16),
     SextetChar((b1 % 16) * 4 + b2 / 64), SextetChar(b2 % 64)]
  }

  /** `Buffer.toString("base64url")`: four characters per three bytes, and a final one or
      two bytes as two or three characters (no padding). */
  function Base64Url(b: seq<byte>): (s: string)
    ensures |s| == (|b| / 3) * 4 + (if |b| % 3 == 0 then 0 else |b| % 3 + 1)
    ensures |b| % 3 == 0 ==> |s| % 4 == 0
    ensures forall i :: 0 <= i < |s| ==> IsBase64UrlChar(s[i])
  {
    if |b| == 0 then ""
    else if |b| == 1 then
      SextetCharInAlphabet(b[0] / 4);
      SextetCharInAlphabet((b[0] % 4) * 16);
      [SextetChar(b[0] / 4), SextetChar((b[0] % 4) * 16)]
    else if |b| == 2 then
      SextetCharInAlphabet(b[0] / 4);
      SextetCharInAlphabet((b[0] % 4) * 16 + b[1] / 16);
      SextetCharInAlphabet((b[1] % 16) * 4);
      [SextetChar(b[0] / 4), SextetChar((b[0] % 4) * 16 + b[1] / 16), SextetChar((b[1] % 16) * 4)]
    else
      EncodeGroup(b[0], b[1], b[2]) + Base64Url(b[3..])
  }

  /** Decodes whole four-character groups back to bytes. */
  function Base64UrlDecode(s: string): seq<int>
    requires |s| % 4 == 0
    requires forall i :: 0 <= i < |s| ==> IsBase64UrlChar(s[i])
  {
    if |s| == 0 then []
    else
      var v0, v1, v2, v3 := SextetValue(s[0]), SextetValue(s[1]), SextetValue(s[2]), SextetValue(s[3]);
      [v0 * 4 + v1 / 16, (v1 % 16) * 16 + v2 / 4, (v2 % 4) * 64 + v3] + Base64UrlDecode(s[4..])
  }

  lemma DecodeGroup(b0: byte, b1: byte, b2: byte)
    ensures var s := EncodeGroup(b0, b1, b2);
      Base64UrlDecode(s) == [b0, b1, b2]
  {
    var s := EncodeGroup(b0, b1, b2);
    SextetCharInAlphabet(b0 / 4);
    SextetCharInAlphabet((b0 % 4) * 16 + b1 / 16);
    SextetCharInAlphabet((b1 % 16) * 4 + b2 / 64);
    SextetCharInAlphabet(b2 % 64);
    var v1 := (b0 % 4) * 16 + b1 / 16;
    var v2 := (b1 % 16) * 4 + b2 / 64;
    assert v1 / 16 == b0 % 4 && v1 % 16 == b1 / 16;
    assert v2 / 4 == b1 % 16 && v2 % 4 == b2 / 64;
    assert s[4..] == "";
  }

  /** Encoding whole groups loses nothing: decoding gives the bytes back. */
  lemma {:induction false} Base64UrlRoundTrip(b: seq<byte>)
    requires |b| % 3 == 0
    ensures Base64UrlDecode(Base64Url(b)) == b
  {
    if |b| > 0 {
      assert |b| >= 3;
      var g := EncodeGroup(b[0], b[1], b[2]);
      var t := Base64Url(b[3..]);
      assert Base64Url(b) == g + t;
      DecodeCons(g, t);
      DecodeGroup(b[0], b[1], b[2]);
      Base64UrlRoundTrip(b[3..]);
      assert b == [b[0], b[1], b[2]] + b[3..];
    } else {
      assert Base64Url(b) == "";
    }
  }

  lemma DecodeCons(g: string, t: string)
    requires |g| == 4 && |t| % 4 == 0
    requires forall i :: 0 <= i < |g| ==> IsBase64UrlChar(g[i])
    requires forall i :: 0 <= i < |t| ==> IsBase64UrlChar(t[i])
    ensures forall i :: 0 <= i < |g + t| ==> IsBase64UrlChar((g + t)[i])
    ensures Base64UrlDecode(g + t) == Base64UrlDecode(g) + Base64UrlDecode(t)
  {
    assert forall i :: 0 <= i < |g + t| ==> IsBase64UrlChar((g + t)[i]) by {
      forall i | 0 <= i < |g + t| ensures IsBase64UrlChar((g + t)[i]) {
        if i < 4 { assert (g + t)[i] == g[i]; } else { assert (g + t)[i] == t[i - 4]; }
      }
    }
    assert (g + t)[4..] == t;
    assert g[4..] == "";
  }

  /** Whole groups encode independently of what follows them. */
  lemma {:induction false} Base64UrlConcat(a: seq<byte>, c: seq<byte>)
    requires |a| % 3 == 0
    ensures Base64Url(a + c) == Base64Url(a) + Base64Url(c)
  {
    if |a| > 0 {
      assert |a| >= 3;
      var ac := a + c;
      assert ac[0] == a[0] && ac[1] == a[1] && ac[2] == a[2];
      assert ac[3..] == a[3..] + c;
      Base64UrlConcat(a[3..], c);
      assert Base64Url(ac) == EncodeGroup(a[0], a[1], a[2]) + Base64Url(a[3..] + c);
    } else {
      assert a + c == c;
    }
  }

  /** `randomBytes(8).toString("base64url").slice(0, 8)`. */
  function Candidate(d: Draw): (code: string)
    ensures |code| == CodeLength
    ensures forall i :: 0 <= i < |code| ==> IsBase64UrlChar(code[i])
  {
    Base64Url(d)[..CodeLength]
  }

  /** A candidate is exactly the encoding of the draw's first six bytes, so the code fixes
      those bytes: two draws give the same code only if their first six bytes agree. */
  lemma CandidateEncodesSixBytes(d: Draw)
    ensures Candidate(d) == Base64Url(d[..6])
    ensures Base64UrlDecode(Candidate(d)) == d[..6]
  {
    assert d == d[..6] + d[6..];
    Base64UrlConcat(d[..6], d[6..]);
    Base64UrlRoundTrip(d[..6]);
  }

  /** `generatInviteCode`: draws at most five candidates and reads the invites table only.
      It returns the first candidate that is not an existing code, after as many draws as
      it took; when all five are taken it fails with "Failed to generate unique invite code". */
  method GenerateInviteCode(db: Db, draws: seq<Draw>) returns (r: Result<string, Thrown>, attempts: nat)
    requires |draws| >= MaxAttempts
    ensures 1 <= attempts <= MaxAttempts
    ensures forall k :: 0 <= k < attempts - 1 ==> Candidate(draws[k]) in db.invites
    ensures r.Success? ==> r.value == Candidate(draws[attempts - 1]) && r.value !in db.invites
    ensures r.Failure? ==> (attempts == MaxAttempts && Candidate(draws[attempts - 1]) in db.invites
                            && r.error == Other("Error", "Failed to generate unique invite code"))
  {
    var inviteCode := "";
    var isUnique := false;
    attempts := 0;
    while !isUnique && attempts < MaxAttempts
      invariant 0 <= attempts <= MaxAttempts
      invariant forall k :: 0 <= k < attempts - 1 ==> Candidate(draws[k]) in db.invites
      invariant attempts > 0 ==> inviteCode == Candidate(draws[attempts - 1])
      invariant isUnique <==> attempts > 0 && inviteCode !in db.invites
      decreases MaxAttempts - attempts
    {
      inviteCode := Candidate(draws[attempts]);
      var existing := inviteCode in db.invites;
      if !existing {
        isUnique := true;
      }
      attempts := attempts + 1;
    }
    if !isUnique {
      return Failure(Other("Error", "Failed to generate unique invite code")), attempts;
    }
    r := Success(inviteCode);
  }
}
