/**
 What a secret file holds and what readValidatedSecret and decodePersistedSecret of
 scripts/init-self-host.ts accept. Text is a sequence of Unicode characters, counted in UTF-8 bytes
 where the byte limit matters; the decoding itself is not modelled, except that TextDecoder drops one
 leading byte order mark.
 */
module SecretText {
  import opened Options

  const BOM: char := '\U{FEFF}'

  /** The characters String.prototype.trim removes. */
  predicate IsSpace(c: char) {
    || '\U{0009}' <= c <= '\U{000D}' || c == ' ' || c == '\U{00A0}' || c == '\U{1680}'
    || '\U{2000}' <= c <= '\U{200A}' || c == '\U{2028}' || c == '\U{2029}'
    || c == '\U{202F}' || c == '\U{205F}' || c == '\U{3000}' || c == BOM
  }

  /** value === value.trim() */
  predicate Trimmed(s: string) {
    s == [] || (!IsSpace(s[0]) && !IsSpace(s[|s| - 1]))
  }

  function DropBom(s: string): string {
    if s != [] && s[0] == BOM then s[1..] else s
  }

  function DropLineEnd(s: string): string {
    if |s| >= 2 && s[|s| - 2..] == "\r\n" then s[..|s| - 2]
    else if |s| >= 1 && s[|s| - 1] == '\n' then s[..|s| - 1]
    else s
  }

  /** None is every thrown error. */
  function Decode(content: string): Option<string> {
    var value := DropLineEnd(DropBom(content));
    if value == [] then None
    else if '\r' in value || '\n' in value || '\U{0000}' in value then None
    else if !Trimmed(value) then None
    else Some(value)
  }

  function Encode(candidate: string): string {
    candidate + "\n"
  }

  const MAX_SECRET_BYTES := 16384

  /** Buffer.byteLength in UTF-8 */
  function Bytes(s: string): nat {
    if s == [] then 0
    else (if s[0] < '\U{0080}' then 1 else if s[0] < '\U{0800}' then 2 else if s[0] < '\U{10000}' then 3 else 4)
         + Bytes(s[1..])
  }

  lemma {:induction false} BytesAppend(s: string, t: string)
    ensures Bytes(s + t) == Bytes(s) + Bytes(t)
  {
    if s == [] {
      assert s + t == t;
    } else {
      assert (s + t)[1..] == s[1..] + t;
      BytesAppend(s[1..], t);
    }
  }

  lemma {:induction false} AsciiBytes(s: string)
    requires forall i :: 0 <= i < |s| ==> s[i] < '\U{0080}'
    ensures Bytes(s) == |s|
  {
    if s != [] {
      AsciiBytes(s[1..]);
    }
  }

  /** The guard of materializeSecret on what it writes. */
  predicate MayWrite(candidate: string) {
    candidate != [] && Bytes(candidate) <= MAX_SECRET_BYTES
  }

  /** readValidatedSecret, past its link check. */
  function Validated(content: string): Option<string> {
    if Bytes(content) > MAX_SECRET_BYTES then None else Decode(content)
  }

  /** One line of text without surrounding whitespace. */
  predicate Plain(s: string) {
    s != [] && '\r' !in s && '\n' !in s && '\U{0000}' !in s && Trimmed(s)
  }

  predicate Storable(s: string) {
    Plain(s) && Bytes(s) < MAX_SECRET_BYTES
  }

  lemma EncodedBytes(candidate: string)
    ensures Bytes(Encode(candidate)) == Bytes(candidate) + 1
  {
    BytesAppend(candidate, "\n");
    AsciiBytes("\n");
  }

  lemma PlainDecodes(candidate: string)
    ensures Decode(Encode(candidate)) == Some(candidate) <==> Plain(candidate)
  {
    var content := Encode(candidate);
    if Plain(candidate) {
      assert candidate[0] != BOM;
      assert DropBom(content) == content;
      assert content[|content| - 1] == '\n' && content[..|content| - 1] == candidate;
      assert content[|content| - 2] == candidate[|candidate| - 1] != '\r';
    }
  }

  /** What is left out on reading only makes the text shorter. */
  lemma DecodedIsPlain(content: string)
    requires Decode(content).Some?
    ensures Plain(Decode(content).value) && Bytes(Decode(content).value) <= Bytes(content)
  {
    var whole, value := DropBom(content), Decode(content).value;
    assert value == DropLineEnd(whole) && '\r' !in value && '\n' !in value;
    PieceBytes(content[..|content| - |whole|], whole, content);
    PieceBytes(value, whole[|value|..], whole);
  }

  lemma PieceBytes(s: string, t: string, whole: string)
    requires whole == s + t
    ensures Bytes(whole) == Bytes(s) + Bytes(t)
  {
    BytesAppend(s, t);
  }

  /**
   The candidates that survive being written and read back are exactly the storable ones: of the plain
   candidates that may be written, the newline makes the one of exactly the limit too long to read.
   */
  lemma RoundTripIff(candidate: string)
    ensures Validated(Encode(candidate)) == Some(candidate) <==> Storable(candidate)
    ensures MayWrite(candidate) && Plain(candidate) ==> (Storable(candidate) <==> Bytes(candidate) != 16384)
  {
    EncodedBytes(candidate);
    PlainDecodes(candidate);
  }

  /**
   Whatever file is accepted, the value read from it may be written, and would be read back unchanged unless
   it has exactly the limit, as a file without a final newline can.
   */
  lemma AcceptedIsStorable(content: string)
    ensures Validated(content).Some? ==>
              var value := Validated(content).value;
              && 0 < Bytes(value) <= 16384 && value != [] && !IsSpace(value[0]) && !IsSpace(value[|value| - 1])
              && (forall i :: 0 <= i < |value| ==> value[i] !in "\r\n\0")
              && (Validated(Encode(value)) == Some(value) <==> Bytes(value) != 16384)
  {
    if Validated(content).Some? {
      DecodedIsPlain(content);
      RoundTripIff(Validated(content).value);
    }
  }

  /** The base64url alphabet randomSecret draws from. */
  predicate Base64Url(c: char) {
    'a' <= c <= 'z' || 'A' <= c <= 'Z' || '0' <= c <= '9' || c == '-' || c == '_'
  }

  /** A random secret: 32 or 48 bytes, so 43 or 64 characters. */
  predicate Generated(s: string) {
    0 < |s| <= 64 && forall i :: 0 <= i < |s| ==> Base64Url(s[i])
  }

  lemma GeneratedIsStorable(s: string)
    requires Generated(s)
    ensures Storable(s)
  {
    assert Base64Url(s[0]) && Base64Url(s[|s| - 1]);
    AsciiBytes(s);
  }

  const URL_PREFIX := "postgres://opensteer:"
  const URL_SUFFIX := "@postgres:5432/opensteer"

  /** encodeURIComponent leaves the base64url alphabet alone, so a password is embedded as it is. */
  function DatabaseUrl(password: string): string {
    URL_PREFIX + password + URL_SUFFIX
  }

  lemma DatabaseUrlIsStorable(password: string)
    requires Generated(password)
    ensures Storable(DatabaseUrl(password))
  {
    var url := DatabaseUrl(password);
    assert forall i :: 0 <= i < |URL_PREFIX| ==> '!' <= URL_PREFIX[i] <= '~';
    assert forall i :: 0 <= i < |URL_SUFFIX| ==> '!' <= URL_SUFFIX[i] <= '~';
    forall i | 0 <= i < |url|
      ensures '!' <= url[i] <= '~'
    {
      if i < |URL_PREFIX| {
        assert url[i] == URL_PREFIX[i];
      } else if i < |URL_PREFIX| + |password| {
        assert url[i] == password[i - |URL_PREFIX|] && Base64Url(url[i]);
      } else {
        assert url[i] == URL_SUFFIX[i - |URL_PREFIX| - |password|];
      }
    }
    AsciiBytes(url);
  }

  lemma DatabaseUrlInjective(p: string, q: string)
    requires DatabaseUrl(p) == DatabaseUrl(q)
    ensures p == q
  {
    var u, v := DatabaseUrl(p), DatabaseUrl(q);
    assert |u| == |URL_PREFIX| + |p| + |URL_SUFFIX| && |v| == |URL_PREFIX| + |q| + |URL_SUFFIX|;
    assert p == u[|URL_PREFIX|..|URL_PREFIX| + |p|];
    assert q == v[|URL_PREFIX|..|URL_PREFIX| + |q|];
  }
}
