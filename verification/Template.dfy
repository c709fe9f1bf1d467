/** The bytes a revision is the hash of, and a decoder that reads the pod template back from them. */
module Template {
  import opened Text
  import opened Deployments

  type Bytes = seq<int>

  // ---- text as UTF-8 ---------------------------------------------------------------------------

  function Utf8Char(c: char): (b: Bytes)
    ensures 1 <= |b| <= 4
  {
    var n := c as int;
    if n < 0x80 then [n]
    else if n < 0x800 then [0xC0 + n / 64, 0x80 + n % 64]
    else if n < 0x10000 then [0xE0 + n / 4096, 0x80 + n / 64 % 64, 0x80 + n % 64]
    else [0xF0 + n / 262144, 0x80 + n / 4096 % 64, 0x80 + n / 64 % 64, 0x80 + n % 64]
  }

  function Utf8(s: string): Bytes {
    if s == "" then [] else Utf8Char(s[0]) + Utf8(s[1..])
  }

  /** The first scalar of a byte string and how many bytes it takes. */
  function FirstScalar(b: Bytes): Option<(int, nat)> {
    if |b| >= 1 && 0 <= b[0] < 0x80 then Some((b[0], 1))
    else if |b| >= 2 && 0xC0 <= b[0] < 0xE0 then Some(((b[0] - 0xC0) * 64 + (b[1] - 0x80), 2))
    else if |b| >= 3 && 0xE0 <= b[0] < 0xF0 then Some(((b[0] - 0xE0) * 4096 + (b[1] - 0x80) * 64 + (b[2] - 0x80), 3))
    else if |b| >= 4 && 0xF0 <= b[0] then
      Some(((b[0] - 0xF0) * 262144 + (b[1] - 0x80) * 4096 + (b[2] - 0x80) * 64 + (b[3] - 0x80), 4))
    else None
  }

  predicate IsScalar(n: int) {
    0 <= n < 0xD800 || 0xE000 <= n < 0x11_0000
  }

  function ReadUtf8(b: Bytes): Option<string>
    decreases |b|
  {
    if b == [] then Some("") else
      match FirstScalar(b)
      case None => None
      case Some((n, k)) =>
        if k > |b| || k == 0 || !IsScalar(n) then None else
          match ReadUtf8(b[k..])
          case None => None
          case Some(rest) => Some([n as char] + rest)
  }

  lemma FirstScalarOf(c: char, rest: Bytes)
    ensures FirstScalar(Utf8Char(c) + rest) == Some((c as int, |Utf8Char(c)|))
    ensures (Utf8Char(c) + rest)[|Utf8Char(c)|..] == rest
  {
    var n := c as int;
    assert n == n / 64 * 64 + n % 64;
    assert n / 64 == n / 4096 * 64 + n / 64 % 64;
    assert n / 4096 == n / 262144 * 64 + n / 4096 % 64;
  }

  lemma {:induction false} Utf8RoundTrip(s: string)
    ensures ReadUtf8(Utf8(s)) == Some(s)
  {
    if s != "" {
      var c, rest := s[0], s[1..];
      FirstScalarOf(c, Utf8(rest));
      Utf8RoundTrip(rest);
      var b := Utf8(s);
      assert b == Utf8Char(c) + Utf8(rest);
      assert IsScalar(c as int) && (c as int) as char == c;
      hide FirstScalar, Utf8Char, Utf8;
      assert s == [c] + rest;
    }
  }

  lemma {:induction false} Utf8Nul(s: string)
    ensures 0 in Utf8(s) <==> '\0' in s
  {
    if s != "" {
      Utf8Nul(s[1..]);
      assert s == [s[0]] + s[1..];
    }
  }

  lemma {:induction false} Utf8One(s: string)
    ensures 1 in Utf8(s) <==> '\U{1}' in s
  {
    if s != "" {
      Utf8One(s[1..]);
      assert s == [s[0]] + s[1..];
    }
  }

  lemma Utf8Injective(a: string, b: string)
    requires Utf8(a) == Utf8(b)
    ensures a == b
  {
    Utf8RoundTrip(a);
    Utf8RoundTrip(b);
  }

  lemma {:induction false} Utf8Append(a: string, b: string)
    ensures Utf8(a + b) == Utf8(a) + Utf8(b)
  {
    if a == "" {
      assert a + b == b;
    } else {
      assert (a + b)[1..] == a[1..] + b;
      Utf8Append(a[1..], b);
    }
  }

  // ---- little-endian integers ------------------------------------------------------------------

  function LittleEndian(x: nat, width: nat): (b: Bytes)
    ensures |b| == width
  {
    if width == 0 then [] else [x % 256] + LittleEndian(x / 256, width - 1)
  }

  function FromLittleEndian(b: Bytes): int {
    if b == [] then 0 else b[0] + 256 * FromLittleEndian(b[1..])
  }

  function Pow256(n: nat): nat {
    if n == 0 then 1 else 256 * Pow256(n - 1)
  }

  lemma {:induction false} LittleEndianRoundTrip(x: nat, width: nat)
    requires x < Pow256(width)
    ensures FromLittleEndian(LittleEndian(x, width)) == x
  {
    if width > 0 {
      LittleEndianRoundTrip(x / 256, width - 1);
      assert ([x % 256] + LittleEndian(x / 256, width - 1))[1..] == LittleEndian(x / 256, width - 1);
    }
  }

  lemma Widths()
    ensures Pow256(4) == 0x1_0000_0000
    ensures Pow256(8) == 0x1_0000_0000_0000_0000
    ensures Pow256(16) == 0x1_0000_0000_0000_0000_0000_0000_0000_0000
  {
    assert Pow256(2) == 0x1_0000;
    assert Pow256(4) == 0x1_0000_0000;
    assert Pow256(6) == 0x1_0000_0000_0000;
    assert Pow256(8) == 0x1_0000_0000_0000_0000;
    assert Pow256(10) == 0x1_0000_0000_0000_0000_0000;
    assert Pow256(12) == 0x1_0000_0000_0000_0000_0000_0000;
    assert Pow256(14) == 0x1_0000_0000_0000_0000_0000_0000_0000;
    assert Pow256(16) == 0x1_0000_0000_0000_0000_0000_0000_0000_0000;
  }

  /** Two's complement of an i128. */
  function Unsigned128(x: I128): nat {
    if x >= 0 then x else x + 0x1_0000_0000_0000_0000_0000_0000_0000_0000
  }

  function Signed128(x: int): int {
    if x < 0x8000_0000_0000_0000_0000_0000_0000_0000 then x else x - 0x1_0000_0000_0000_0000_0000_0000_0000_0000
  }

  // ---- the hashed bytes --------------------------------------------------------------------------

  /** Each argument followed by a zero byte. */
  function Terminated(args: seq<string>): Bytes {
    if args == [] then [] else Utf8(args[0]) + [0] + Terminated(args[1..])
  }

  function EnvEntry(e: EnvVar): Bytes {
    Utf8(e.name) + [0] + Utf8(e.value) + [0] + (match e.valueFrom case None => [] case Some(s) => Utf8(s)) + [1]
  }

  function EnvBytes(env: seq<EnvVar>): Bytes {
    if env == [] then [] else EnvEntry(env[0]) + EnvBytes(env[1..])
  }

  function Numbers(d: Deployment): (b: Bytes)
    ensures |b| == 36
  {
    LittleEndian(d.resources.cpuCores, 4) + LittleEndian(d.resources.memMb, 8)
      + LittleEndian(Unsigned128(d.bid), 16) + LittleEndian(d.durationSecs, 8)
  }

  function TemplateBytes(d: Deployment): Bytes {
    Utf8(d.image) + [0] + Terminated(d.command) + Numbers(d) + EnvBytes(d.env)
  }

  /** The revision label: an opaque digest of the template bytes. */
  function RevisionOf(hash: Bytes -> string, d: Deployment): string {
    hash(TemplateBytes(d))
  }

  /** The running hash state: what has been fed to it so far. */
  class Hasher {
    var fed: Bytes

    constructor ()
      ensures fed == []
    {
      fed := [];
    }

    method Update(b: Bytes)
      modifies this
      ensures fed == old(fed) + b
    {
      fed := fed + b;
    }
  }

  method FeedCommand(h: Hasher, command: seq<string>)
    modifies h
    ensures h.fed == old(h.fed) + Terminated(command)
  {
    hide Utf8;
    for i := 0 to |command|
      invariant h.fed + Terminated(command[i..]) == old(h.fed) + Terminated(command)
    {
      assert command[i..][1..] == command[i + 1..];
      h.Update(Utf8(command[i]));
      h.Update([0]);
    }
    assert command[|command|..] == [];
  }

  method FeedEnvVar(h: Hasher, e: EnvVar)
    modifies h
    ensures h.fed == old(h.fed) + EnvEntry(e)
  {
    hide Utf8;
    h.Update(Utf8(e.name));
    h.Update([0]);
    h.Update(Utf8(e.value));
    h.Update([0]);
    match e.valueFrom {
      case Some(s) => h.Update(Utf8(s));
      case None =>
    }
    h.Update([1]);
  }

  method FeedEnv(h: Hasher, env: seq<EnvVar>)
    modifies h
    ensures h.fed == old(h.fed) + EnvBytes(env)
  {
    hide EnvEntry;
    for i := 0 to |env|
      invariant h.fed + EnvBytes(env[i..]) == old(h.fed) + EnvBytes(env)
    {
      assert env[i..][1..] == env[i + 1..];
      FeedEnvVar(h, env[i]);
    }
    assert env[|env|..] == [];
  }

  method Revision(hash: Bytes -> string, d: Deployment) returns (r: string)
    ensures r == RevisionOf(hash, d)
  {
    hide Utf8, Terminated, EnvBytes, LittleEndian;
    var h := new Hasher();
    h.Update(Utf8(d.image));
    h.Update([0]);
    FeedCommand(h, d.command);
    h.Update(LittleEndian(d.resources.cpuCores, 4));
    h.Update(LittleEndian(d.resources.memMb, 8));
    h.Update(LittleEndian(Unsigned128(d.bid), 16));
    h.Update(LittleEndian(d.durationSecs, 8));
    assert h.fed == Utf8(d.image) + [0] + Terminated(d.command) + Numbers(d);
    FeedEnv(h, d.env);
    r := hash(h.fed);
  }

  // ---- reading the template back -----------------------------------------------------------------

  datatype PodTemplate = PodTemplate(image: string, command: seq<string>, cpuCores: int, memMb: int, bid: int, durationSecs: int)

  function TemplateOf(d: Deployment): PodTemplate {
    PodTemplate(d.image, d.command, d.resources.cpuCores, d.resources.memMb, d.bid, d.durationSecs)
  }

  /** Split at zero bytes; every field must end with one. */
  function Fields(b: Bytes, field: Bytes): Option<seq<Bytes>> {
    if b == [] then (if field == [] then Some([]) else None)
    else if b[0] == 0 then
      match Fields(b[1..], []) case None => None case Some(rest) => Some([field] + rest)
    else Fields(b[1..], field + [b[0]])
  }

  function ReadAll(fields: seq<Bytes>): Option<seq<string>> {
    if fields == [] then Some([]) else
      match (ReadUtf8(fields[0]), ReadAll(fields[1..]))
      case (Some(s), Some(rest)) => Some([s] + rest)
      case _ => None
  }

  function Decode(b: Bytes): Option<PodTemplate> {
    if |b| < 36 then None else
      var head, tail := b[..|b| - 36], b[|b| - 36..];
      match Fields(head, [])
      case None => None
      case Some(fields) =>
        match ReadAll(fields)
        case None => None
        case Some(texts) =>
          if texts == [] then None else
            Some(PodTemplate(texts[0], texts[1..], FromLittleEndian(tail[..4]), FromLittleEndian(tail[4..12]),
                             Signed128(FromLittleEndian(tail[12..28])), FromLittleEndian(tail[28..])))
  }

  predicate NulFree(d: Deployment) {
    '\0' !in d.image && forall arg :: arg in d.command ==> '\0' !in arg
  }

  lemma {:induction false} FieldRead(b: Bytes, rest: Bytes, field: Bytes)
    requires 0 !in b
    ensures Fields(b + [0] + rest, field)
         == match Fields(rest, []) case None => None case Some(more) => Some([field + b] + more)
    decreases |b|
  {
    var all := b + [0] + rest;
    if b == [] {
      assert all[0] == 0 && all[1..] == rest;
      assert field + b == field;
    } else {
      assert all[0] == b[0] && all[1..] == b[1..] + [0] + rest;
      FieldRead(b[1..], rest, field + [b[0]]);
      assert field + [b[0]] + b[1..] == field + b;
    }
  }

  function Utf8All(args: seq<string>): seq<Bytes> {
    if args == [] then [] else [Utf8(args[0])] + Utf8All(args[1..])
  }

  lemma {:induction false} FieldsOfTerminated(args: seq<string>)
    requires forall arg :: arg in args ==> '\0' !in arg
    ensures Fields(Terminated(args), []) == Some(Utf8All(args))
    ensures ReadAll(Utf8All(args)) == Some(args)
  {
    if args != [] {
      var rest := args[1..];
      assert args == [args[0]] + rest;
      FieldsOfTerminated(rest);
      Utf8Nul(args[0]);
      Utf8RoundTrip(args[0]);
      FieldRead(Utf8(args[0]), Terminated(rest), []);
      assert [] + Utf8(args[0]) == Utf8(args[0]);
      hide Fields, Utf8;
    }
  }

  lemma NumbersReadBack(d: Deployment)
    ensures var tail := Numbers(d);
            && FromLittleEndian(tail[..4]) == d.resources.cpuCores
            && FromLittleEndian(tail[4..12]) == d.resources.memMb
            && Signed128(FromLittleEndian(tail[12..28])) == d.bid
            && FromLittleEndian(tail[28..]) == d.durationSecs
  {
    NumberFits(d);
    hide FromLittleEndian, LittleEndian, Unsigned128, Signed128;
    Slices(LittleEndian(d.resources.cpuCores, 4), LittleEndian(d.resources.memMb, 8),
           LittleEndian(Unsigned128(d.bid), 16), LittleEndian(d.durationSecs, 8));
  }

  lemma Slices(a: Bytes, b: Bytes, c: Bytes, e: Bytes)
    requires |a| == 4 && |b| == 8 && |c| == 16 && |e| == 8
    ensures var tail := a + b + c + e; tail[..4] == a && tail[4..12] == b && tail[12..28] == c && tail[28..] == e
  {
  }

  lemma NumberFits(d: Deployment)
    ensures FromLittleEndian(LittleEndian(d.resources.cpuCores, 4)) == d.resources.cpuCores
    ensures FromLittleEndian(LittleEndian(d.resources.memMb, 8)) == d.resources.memMb
    ensures Signed128(FromLittleEndian(LittleEndian(Unsigned128(d.bid), 16))) == d.bid
    ensures FromLittleEndian(LittleEndian(d.durationSecs, 8)) == d.durationSecs
  {
    Widths();
    hide Pow256;
    LittleEndianRoundTrip(d.resources.cpuCores, 4);
    LittleEndianRoundTrip(d.resources.memMb, 8);
    LittleEndianRoundTrip(Unsigned128(d.bid), 16);
    LittleEndianRoundTrip(d.durationSecs, 8);
    hide LittleEndian, FromLittleEndian;
  }

  /** Decoding recovers the pod template of every deployment without environment variables whose
      image and arguments contain no zero character. */
  lemma TemplateRoundTrip(d: Deployment)
    requires d.env == [] && NulFree(d)
    ensures Decode(TemplateBytes(d)) == Some(TemplateOf(d))
  {
    var args := [d.image] + d.command;
    FieldsOfTerminated(args);
    NumbersReadBack(d);
    assert args[1..] == d.command;
    var b := TemplateBytes(d);
    assert Terminated(args) == Utf8(d.image) + [0] + Terminated(d.command);
    assert b == Terminated(args) + Numbers(d);
    hide Fields, ReadAll, Terminated, Numbers, FromLittleEndian, Utf8, Utf8All, TemplateBytes, Signed128;
    assert b[..|b| - 36] == Terminated(args) && b[|b| - 36..] == Numbers(d);
  }

  /** So among such deployments equal hash inputs mean equal pod templates. */
  lemma EqualBytesEqualTemplates(d: Deployment, e: Deployment)
    requires d.env == [] && e.env == [] && NulFree(d) && NulFree(e)
    ensures TemplateBytes(d) == TemplateBytes(e) <==> TemplateOf(d) == TemplateOf(e)
  {
    TemplateRoundTrip(d);
    TemplateRoundTrip(e);
    hide Decode;
  }

  lemma SplitSame(before: seq<string>, a: string, b: string, after: seq<string>)
    ensures Terminated(before + [a + "\0" + b] + after) == Terminated(before + [a, b] + after)
  {
    OneArgument(a + "\0" + b);
    OneArgument(a);
    OneArgument(b);
    Utf8Append(a + "\0", b);
    Utf8Append(a, "\0");
    NulIsZero();
    hide Utf8;
    TerminatedAppend([a], [b]);
    assert [a, b] == [a] + [b];
    hide Terminated;
    assert Terminated([a + "\0" + b]) == Terminated([a, b]);
    TerminatedAppend(before + [a + "\0" + b], after);
    TerminatedAppend(before + [a, b], after);
    TerminatedAppend(before, [a + "\0" + b]);
    TerminatedAppend(before, [a, b]);
  }

  /** The zero-character condition is needed: an argument with an embedded zero character hashes
      like the two arguments it would split into. */
  lemma NulArgumentCollides(d: Deployment, before: seq<string>, a: string, b: string, after: seq<string>)
    requires d.command == before + [a + "\0" + b] + after
    ensures TemplateBytes(d) == TemplateBytes(d.(command := before + [a, b] + after))
    ensures TemplateOf(d) != TemplateOf(d.(command := before + [a, b] + after))
  {
    SplitSame(before, a, b, after);
    hide Terminated, Utf8, EnvBytes, LittleEndian;
    assert |d.command| != |before + [a, b] + after|;
  }

  lemma NulIsZero()
    ensures Utf8("\0") == [0]
  {
    assert "\0"[1..] == "";
  }

  lemma OneArgument(a: string)
    ensures Terminated([a]) == Utf8(a) + [0]
  {
    assert [a][1..] == [];
  }

  lemma {:induction false} TerminatedAppend(a: seq<string>, b: seq<string>)
    ensures Terminated(a + b) == Terminated(a) + Terminated(b)
  {
    hide Utf8;
    if a == [] {
      assert a + b == b;
    } else {
      assert (a + b)[1..] == a[1..] + b;
      TerminatedAppend(a[1..], b);
    }
  }

  // ---- with environment variables the bytes are ambiguous -----------------------------------------

  lemma LowByte(x: nat, y: nat, width: nat)
    requires x < 256 && width > 0
    ensures LittleEndian(x + 256 * y, width) == [x] + LittleEndian(y, width - 1)
  {
    assert (x + 256 * y) % 256 == x && (x + 256 * y) / 256 == y;
  }

  /** The low four bytes and the rest. */
  lemma LowWord(a: nat, b: nat, c: nat, e: nat, y: nat, width: nat)
    requires a < 256 && b < 256 && c < 256 && e < 256 && width >= 4
    ensures LittleEndian(a + 256 * (b + 256 * (c + 256 * (e + 256 * y))), width)
         == [a, b, c, e] + LittleEndian(y, width - 4)
  {
    hide LittleEndian;
    LowByte(a, b + 256 * (c + 256 * (e + 256 * y)), width);
    LowByte(b, c + 256 * (e + 256 * y), width - 1);
    LowByte(c, e + 256 * y, width - 2);
    LowByte(e, y, width - 3);
  }

  lemma NoWidth()
    ensures LittleEndian(0, 0) == []
  {
  }

  lemma Zeros()
    ensures LittleEndian(0, 4) == [0, 0, 0, 0]
    ensures LittleEndian(0, 8) == [0, 0, 0, 0] + [0, 0, 0, 0]
    ensures LittleEndian(0, 16) == [0, 0, 0, 0] + [0, 0, 0, 0] + [0, 0, 0, 0] + [0, 0, 0, 0]
  {
    NoWidth();
    hide LittleEndian;
    LowWord(0, 0, 0, 0, 0, 4);
    LowWord(0, 0, 0, 0, 0, 8);
    LowWord(0, 0, 0, 0, 0, 12);
    LowWord(0, 0, 0, 0, 0, 16);
  }

  // ---- exactly when two deployments collide -------------------------------------------------------

  /** A terminator that occurs in neither field makes the fields and what follows them agree. */
  lemma {:induction false} FieldsAgree(a: Bytes, b: Bytes, end: int, x: Bytes, y: Bytes)
    requires end !in a && end !in b && a + [end] + x == b + [end] + y
    ensures a == b && x == y
  {
    assert (a + [end] + x)[0] == (b + [end] + y)[0];
    assert (a + [end] + x)[1..] == (b + [end] + y)[1..];
    if a == [] || b == [] {
      assert a == [] && b == [];
      assert ([end] + x)[1..] == x && ([end] + y)[1..] == y;
    } else {
      assert (a + [end] + x)[1..] == a[1..] + [end] + x && (b + [end] + y)[1..] == b[1..] + [end] + y;
      FieldsAgree(a[1..], b[1..], end, x, y);
      assert a == [a[0]] + a[1..] && b == [b[0]] + b[1..];
    }
  }

  /** Equally many arguments in front of anything can be told apart from it. */
  lemma {:induction false} ArgumentsAgree(a: seq<string>, b: seq<string>, x: Bytes, y: Bytes)
    requires |a| == |b| && Terminated(a) + x == Terminated(b) + y
    requires (forall arg :: arg in a ==> '\0' !in arg) && (forall arg :: arg in b ==> '\0' !in arg)
    ensures a == b && x == y
    decreases |a|
  {
    if a == [] {
      assert Terminated(a) + x == x && Terminated(b) + y == y;
    } else {
      var p, q := Terminated(a[1..]) + x, Terminated(b[1..]) + y;
      assert Terminated(a) + x == Utf8(a[0]) + [0] + p && Terminated(b) + y == Utf8(b[0]) + [0] + q;
      Utf8Nul(a[0]);
      Utf8Nul(b[0]);
      hide Utf8, Terminated;
      FieldsAgree(Utf8(a[0]), Utf8(b[0]), 0, p, q);
      Utf8Injective(a[0], b[0]);
      ArgumentsAgree(a[1..], b[1..], x, y);
      assert a == [a[0]] + a[1..] && b == [b[0]] + b[1..];
    }
  }

  lemma TemplateAsArguments(d: Deployment)
    ensures TemplateBytes(d) == Terminated([d.image] + d.command) + (Numbers(d) + EnvBytes(d.env))
  {
    hide Utf8, EnvBytes, Numbers;
    TerminatedAppend([d.image], d.command);
    OneArgument(d.image);
  }

  /** With the same number of arguments the hashed bytes are equal if and only if the pod templates and
      the bytes of the environments are. */
  lemma SameCountSameTemplate(d: Deployment, e: Deployment)
    requires NulFree(d) && NulFree(e) && |d.command| == |e.command|
    ensures TemplateBytes(d) == TemplateBytes(e) <==> TemplateOf(d) == TemplateOf(e) && EnvBytes(d.env) == EnvBytes(e.env)
  {
    TemplateAsArguments(d);
    TemplateAsArguments(e);
    NumbersReadBack(d);
    NumbersReadBack(e);
    var a, b := [d.image] + d.command, [e.image] + e.command;
    var x, y := Numbers(d) + EnvBytes(d.env), Numbers(e) + EnvBytes(e.env);
    if TemplateOf(d) == TemplateOf(e) { SameNumbers(d, e); }
    hide Terminated, Numbers, EnvBytes, TemplateBytes, FromLittleEndian, Signed128;
    if TemplateBytes(d) == TemplateBytes(e) {
      ArgumentsAgree(a, b, x, y);
      assert a[0] == b[0] && a[1..] == d.command && b[1..] == e.command;
      assert x[..36] == Numbers(d) && y[..36] == Numbers(e);
      assert x[36..] == EnvBytes(d.env) && y[36..] == EnvBytes(e.env);
    }
  }

  lemma SameNumbers(d: Deployment, e: Deployment)
    requires TemplateOf(d) == TemplateOf(e)
    ensures Numbers(d) == Numbers(e)
  {
  }

  /** Whatever the environments: two deployments with equal hash input have the same pod template if
      and only if they have equally many arguments. */
  lemma CollidesExactly(d: Deployment, e: Deployment)
    requires NulFree(d) && NulFree(e) && TemplateBytes(d) == TemplateBytes(e)
    ensures TemplateOf(d) == TemplateOf(e) <==> |d.command| == |e.command|
  {
    hide TemplateBytes, EnvBytes;
    if |d.command| == |e.command| { SameCountSameTemplate(d, e); }
  }

  /** A hash without collisions. */
  ghost predicate CollisionFree(hash: Bytes -> string) {
    forall x, y :: hash(x) == hash(y) ==> x == y
  }

  /** Revisions tell pod templates apart: under a collision-free hash two deployments without
      environments share a revision if and only if they have the same pod template. */
  lemma RevisionMeansTemplate(hash: Bytes -> string, d: Deployment, e: Deployment)
    requires CollisionFree(hash) && NulFree(d) && NulFree(e) && d.env == [] && e.env == []
    ensures RevisionOf(hash, d) == RevisionOf(hash, e) <==> TemplateOf(d) == TemplateOf(e)
  {
    hide TemplateBytes;
    EqualBytesEqualTemplates(d, e);
  }

  /** With environments and equally many arguments, if and only if the templates and the environment
      bytes are the same. */
  lemma RevisionMeansTemplateAndEnv(hash: Bytes -> string, d: Deployment, e: Deployment)
    requires CollisionFree(hash) && NulFree(d) && NulFree(e) && |d.command| == |e.command|
    ensures RevisionOf(hash, d) == RevisionOf(hash, e) <==> TemplateOf(d) == TemplateOf(e) && EnvBytes(d.env) == EnvBytes(e.env)
  {
    hide TemplateBytes, EnvBytes;
    SameCountSameTemplate(d, e);
  }

  function SecretOf(v: EnvVar): string {
    match v.valueFrom case None => "" case Some(s) => s
  }

  /** No zero character in a name or value, and no U+0001 in a secret reference. */
  predicate EnvReadable(env: seq<EnvVar>) {
    forall v :: v in env ==> '\0' !in v.name && '\0' !in v.value && '\U{1}' !in SecretOf(v)
  }

  /** The same variables in order; an empty secret reference counts as none. */
  ghost predicate SameEnv(a: seq<EnvVar>, b: seq<EnvVar>) {
    |a| == |b| && forall i :: 0 <= i < |a| ==>
      a[i].name == b[i].name && a[i].value == b[i].value && SecretOf(a[i]) == SecretOf(b[i])
  }

  lemma EntryParts(v: EnvVar, rest: Bytes)
    ensures EnvEntry(v) + rest == Utf8(v.name) + [0] + (Utf8(v.value) + [0] + (Utf8(SecretOf(v)) + [1] + rest))
  {
    hide Utf8;
    assert Utf8("") == [] by { SmallTexts(); }
  }

  lemma EntriesAgree(v: EnvVar, w: EnvVar, x: Bytes, y: Bytes)
    requires EnvReadable([v]) && EnvReadable([w]) && EnvEntry(v) + x == EnvEntry(w) + y
    ensures v.name == w.name && v.value == w.value && SecretOf(v) == SecretOf(w) && x == y
  {
    assert v in [v] && w in [w];
    hide Utf8, SecretOf, EnvEntry;
    EntryParts(v, x);
    EntryParts(w, y);
    Utf8Nul(v.name);
    Utf8Nul(w.name);
    Utf8Nul(v.value);
    Utf8Nul(w.value);
    Utf8One(SecretOf(v));
    Utf8One(SecretOf(w));
    var p, q := Utf8(SecretOf(v)) + [1] + x, Utf8(SecretOf(w)) + [1] + y;
    FieldsAgree(Utf8(v.name), Utf8(w.name), 0, Utf8(v.value) + [0] + p, Utf8(w.value) + [0] + q);
    FieldsAgree(Utf8(v.value), Utf8(w.value), 0, p, q);
    FieldsAgree(Utf8(SecretOf(v)), Utf8(SecretOf(w)), 1, x, y);
    Utf8Injective(v.name, w.name);
    Utf8Injective(v.value, w.value);
    Utf8Injective(SecretOf(v), SecretOf(w));
  }

  /** Readable environments hash alike if and only if they are the same. */
  lemma {:induction false} EnvReadsBack(a: seq<EnvVar>, b: seq<EnvVar>)
    requires EnvReadable(a) && EnvReadable(b)
    ensures EnvBytes(a) == EnvBytes(b) <==> SameEnv(a, b)
    decreases |a|
  {
    hide EnvEntry, SecretOf;
    if a != [] && b != [] {
      assert a == [a[0]] + a[1..] && b == [b[0]] + b[1..];
      EnvReadsBack(a[1..], b[1..]);
      if EnvBytes(a) == EnvBytes(b) {
        EntriesAgree(a[0], b[0], EnvBytes(a[1..]), EnvBytes(b[1..]));
      } else if SameEnv(a, b) {
        SameEntry(a[0], b[0]);
      }
    } else {
      EntryNotEmpty(a);
      EntryNotEmpty(b);
    }
  }

  lemma SameEntry(v: EnvVar, w: EnvVar)
    requires v.name == w.name && v.value == w.value && SecretOf(v) == SecretOf(w)
    ensures EnvEntry(v) == EnvEntry(w)
  {
    EntryParts(v, []);
    EntryParts(w, []);
    hide Utf8, SecretOf;
    assert EnvEntry(v) + [] == EnvEntry(v) && EnvEntry(w) + [] == EnvEntry(w);
  }

  lemma EntryNotEmpty(a: seq<EnvVar>)
    ensures EnvBytes(a) == [] <==> a == []
  {
    hide Utf8;
  }

  function Plain(command: seq<string>, cpu: U32, mem: U64, duration: U64, env: seq<EnvVar>): Deployment {
    Deployment("web", "default", "i", command, 1, Resources(cpu, mem), [], 0, duration, Recreate, env, None, "", [])
  }

  function WithVariable(): Deployment {
    Plain(["N"], 0x43_4241, 0x100_0000_0001, 0, [EnvVar("N", "", None)])
  }

  function WithArgument(): Deployment {
    Plain(["N", "ABC"], 1, 256, 0x0100_004E_0000_0000, [])
  }

  /** A concrete pair: command `N` and one variable `N`, against command `N ABC` and no variables. */
  lemma EnvCollides()
    ensures NulFree(WithVariable()) && NulFree(WithArgument())
    ensures TemplateBytes(WithVariable()) == TemplateBytes(WithArgument())
    ensures TemplateOf(WithVariable()) != TemplateOf(WithArgument())
  {
    assert |WithVariable().command| != |WithArgument().command|;
    hide TemplateBytes, Terminated, Middle, Utf8;
    BytesWithVariable();
    BytesWithArgument();
    Regroup(Utf8("i") + [0] + Terminated(["N"]), [0x41, 0x42, 0x43, 0], Middle(), [0x4E, 0, 0, 1]);
  }

  lemma BytesWithVariable()
    ensures TemplateBytes(WithVariable()) == Utf8("i") + [0] + Terminated(["N"]) + ([0x41, 0x42, 0x43, 0] + Middle()) + [0x4E, 0, 0, 1]
  {
    hide Numbers, Terminated, EnvBytes, Middle, Utf8;
    VariableTexts();
    VariableBytes();
  }

  lemma BytesWithArgument()
    ensures TemplateBytes(WithArgument()) == Utf8("i") + [0] + Terminated(["N"]) + [0x41, 0x42, 0x43, 0] + (Middle() + [0x4E, 0, 0, 1])
  {
    hide Numbers, Terminated, EnvBytes, Middle, Utf8;
    VariableTexts();
    ArgumentTexts();
    ArgumentBytes();
    var h := Utf8("i") + [0];
    assert h + (Terminated(["N"]) + [0x41, 0x42, 0x43, 0]) == h + Terminated(["N"]) + [0x41, 0x42, 0x43, 0];
  }

  lemma VariableTexts()
    ensures EnvBytes([EnvVar("N", "", None)]) == [0x4E, 0, 0, 1] && EnvBytes([]) == []
  {
    SmallTexts();
    hide Utf8;
    var entry := EnvVar("N", "", None);
    assert EnvEntry(entry) == [0x4E, 0, 0, 1];
    hide EnvEntry;
    assert [entry][1..] == [];
    assert EnvBytes([]) == [];
  }

  lemma ArgumentTexts()
    ensures Terminated(["N", "ABC"]) == Terminated(["N"]) + [0x41, 0x42, 0x43, 0]
  {
    SmallTexts();
    OneArgument("ABC");
    assert ["N", "ABC"] == ["N"] + ["ABC"];
    TerminatedAppend(["N"], ["ABC"]);
    hide Utf8, Terminated;
  }

  function Middle(): Bytes {
    [1, 0, 0, 0] + [0, 1, 0, 0] + [0, 0, 0, 0] + [0, 0, 0, 0] + [0, 0, 0, 0] + [0, 0, 0, 0] + [0, 0, 0, 0] + [0, 0, 0, 0]
  }

  lemma Regroup(h: Bytes, a: Bytes, m: Bytes, e: Bytes)
    ensures h + (a + m) + e == h + a + (m + e)
  {
  }

  lemma VariableBytes()
    ensures Numbers(WithVariable())
         == [0x41, 0x42, 0x43, 0] + Middle()
  {
    NoWidth();
    Zeros();
    hide LittleEndian;
    LowWord(0x41, 0x42, 0x43, 0, 0, 4);
    LowWord(1, 0, 0, 0, 256, 8);
    LowWord(0, 1, 0, 0, 0, 4);
  }

  lemma ArgumentBytes()
    ensures Numbers(WithArgument())
         == Middle() + [0x4E, 0, 0, 1]
  {
    NoWidth();
    Zeros();
    hide LittleEndian;
    LowWord(1, 0, 0, 0, 0, 4);
    LowWord(0, 1, 0, 0, 0, 8);
    LowWord(0, 0, 0, 0, 0x0100_004E, 8);
    LowWord(0x4E, 0, 0, 1, 0, 4);
  }

  lemma SmallTexts()
    ensures Utf8("N") == [0x4E] && Utf8("") == [] && Utf8("ABC") == [0x41, 0x42, 0x43]
  {
    assert "N"[1..] == "" && "ABC"[1..] == "BC" && "BC"[1..] == "C" && "C"[1..] == "";
    assert Utf8("C") == [0x43];
    assert Utf8("BC") == [0x42, 0x43];
  }

  /** Scaling, placement tags, names and rollout settings are not part of the revision. */
  lemma RevisionIgnores(hash: Bytes -> string, d: Deployment, e: Deployment)
    requires TemplateOf(d) == TemplateOf(e) && d.env == e.env
    ensures RevisionOf(hash, d) == RevisionOf(hash, e)
  {
  }
}
