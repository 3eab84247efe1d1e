/** AF_UNIX addresses of utils.pyx: bytes of a path to a sockaddr_un and back, with the Linux layout. */
module UnixAddress {
  import opened Prelude

  // sizeof(struct sockaddr_storage), offsetof(struct sockaddr_un, sun_path), sizeof(sun_path)
  const STORAGE: nat := 128
  const OFFSET: nat := 2
  const MAX_PATH: nat := 108

  // AF_UNIX as a little-endian sa_family_t
  const FAMILY: seq<byte> := [1, 0]

  /** What the decoder returns: text for pathnames, bytes for abstract names, nothing for another family. */
  datatype PyAddr = Str(text: seq<byte>) | Raw(bytes: seq<byte>) | NotUnix
  {
    function Path(): seq<byte>
      requires !NotUnix?
    {
      match this
      case Str(text) => text
      case Raw(bytes) => bytes
    }
  }

  predicate Abstract(path: seq<byte>) {
    path != [] && path[0] == 0
  }

  /** The paths that the encoder takes: unnamed, abstract up to the full size, or a C string that leaves room for its
      NUL. */
  predicate Accepts(path: seq<byte>) {
    || path == []
    || (Abstract(path) && |path| <= MAX_PATH)
    || (|path| < MAX_PATH && 0 !in path)
  }

  function Zeros(n: nat): (z: seq<byte>)
    ensures |z| == n && forall i :: 0 <= i < n ==> z[i] == 0
  {
    seq(n, _ => 0)
  }

  /** The storage that stands for a path. */
  function Layout(path: seq<byte>): (s: seq<byte>)
    requires |path| <= MAX_PATH
    ensures |s| == STORAGE
  {
    FAMILY + path + Zeros(STORAGE - OFFSET - |path|)
  }

  function Length(path: seq<byte>): nat {
    OFFSET + |path| + if path != [] && path[0] != 0 then 1 else 0
  }

  /** memchr(path, 0, pathlen) != NULL */
  method HasNul(path: seq<byte>) returns (found: bool)
    ensures found <==> 0 in path
  {
    var i := 0;
    while i < |path|
      invariant i <= |path| && 0 !in path[..i]
    {
      if path[i] == 0 {
        return true;
      }
      assert path[..i + 1] == path[..i] + [path[i]];
      i := i + 1;
    }
    assert path[..i] == path;
    return false;
  }

  /** aiofn_set_unix_sockaddr: fills the storage in place. */
  method SetUnixSockaddr(path: seq<byte>, raw: array<byte>) returns (addrlen: nat, err: Option<Exn>)
    requires raw.Length == STORAGE
    modifies raw
    ensures err.None? <==> Accepts(path)
    ensures err.None? ==> raw[..] == Layout(path) && addrlen == Length(path) <= OFFSET + MAX_PATH
    ensures err.Some? ==> err.value == ValueErr && raw[..] == old(raw[..])
  {
    addrlen := 0;
    if |path| > MAX_PATH {
      return 0, Some(ValueErr);
    }
    if |path| > 0 && path[0] != 0 {
      var nul := HasNul(path);
      if |path| == MAX_PATH || nul {
        return 0, Some(ValueErr);
      }
    }
    forall i | 0 <= i < STORAGE {
      raw[i] := 0;
    }
    raw[0], raw[1] := FAMILY[0], FAMILY[1];
    forall i | 0 <= i < |path| {
      raw[OFFSET + i] := path[i];
    }
    assert raw[..] == Layout(path);
    return OFFSET + |path| + (if |path| > 0 && path[0] != 0 then 1 else 0), None;
  }

  /** The part of a byte string before its first NUL. */
  function CString(s: seq<byte>): (r: seq<byte>)
    ensures r <= s && 0 !in r && (|r| < |s| ==> s[|r|] == 0)
  {
    if s == [] || s[0] == 0 then [] else [s[0]] + CString(s[1..])
  }

  lemma {:induction false} CStringIs(s: seq<byte>, n: nat)
    requires n <= |s| && 0 !in s[..n] && (n < |s| ==> s[n] == 0)
    ensures CString(s) == s[..n]
  {
    if n > 0 {
      assert s[0] == s[..n][0];
      assert s[1..][..n - 1] == s[..n][1..];
      CStringIs(s[1..], n - 1);
    }
  }

  /** aiofn_strnlen. */
  method Strnlen(value: seq<byte>, maxlen: nat) returns (len: nat)
    requires maxlen <= |value|
    ensures len <= maxlen && value[..len] == CString(value[..maxlen])
  {
    len := 0;
    while len < maxlen && value[len] != 0
      invariant len <= maxlen && 0 !in value[..len]
    {
      assert value[..len + 1] == value[..len] + [value[len]];
      len := len + 1;
    }
    assert value[..maxlen][..len] == value[..len];
    CStringIs(value[..maxlen], len);
  }

  /** What an address means. */
  function Decoded(raw: seq<byte>, addrlen: nat): PyAddr
    requires OFFSET <= |raw| && addrlen <= |raw|
  {
    if raw[..OFFSET] != FAMILY then NotUnix
    else if addrlen <= OFFSET then Str([])
    else if raw[OFFSET] == 0 then Raw(raw[OFFSET..addrlen])
    else Str(CString(raw[OFFSET..addrlen]))
  }

  /** The AF_UNIX part of aiofn_sockaddr_to_pyaddr. */
  method SockaddrToPyaddr(raw: array<byte>, addrlen: nat) returns (addr: PyAddr)
    requires raw.Length == STORAGE && addrlen <= STORAGE
    ensures addr == Decoded(raw[..], addrlen)
  {
    assert raw[..OFFSET] == raw[..][..OFFSET];
    if raw[..OFFSET] != FAMILY {
      return NotUnix;
    }
    var pathlen: nat := if addrlen > OFFSET then addrlen - OFFSET else 0;
    if pathlen == 0 {
      return Str([]);
    }
    var path := raw[OFFSET..];
    assert path[..pathlen] == raw[..][OFFSET..addrlen];
    if path[0] == 0 {
      return Raw(path[..pathlen]);
    }
    pathlen := Strnlen(path, pathlen);
    return Str(path[..pathlen]);
  }

  /** The round trip: every accepted path comes back, as text or as bytes. */
  lemma RoundTrip(path: seq<byte>)
    requires Accepts(path)
    ensures OFFSET <= Length(path) <= OFFSET + MAX_PATH
    ensures Decoded(Layout(path), Length(path)) == if Abstract(path) then Raw(path) else Str(path)
  {
    var raw := Layout(path);
    assert raw[..OFFSET] == FAMILY;
    if Abstract(path) {
      assert raw[OFFSET..Length(path)] == path;
    } else if path != [] {
      var s := raw[OFFSET..Length(path)];
      assert s == path + [0];
      assert s[..|path|] == path;
      CStringIs(s, |path|);
    }
  }

  /** Different accepted paths have different addresses. */
  lemma Injective(path: seq<byte>, other: seq<byte>)
    requires Accepts(path) && Accepts(other)
    requires Layout(path) == Layout(other) && Length(path) == Length(other)
    ensures path == other
  {
    RoundTrip(path);
    RoundTrip(other);
  }

  /** The other direction, for addresses that the kernel reports. What was decoded can be encoded again exactly when it
      leaves room in sun_path, or is an abstract name that fills it, and then it means the same. */
  lemma Reencode(raw: seq<byte>, addrlen: nat)
    requires |raw| == STORAGE && addrlen <= STORAGE && raw[..OFFSET] == FAMILY
    ensures var path := Decoded(raw, addrlen).Path();
            && (Accepts(path) <==> |path| < MAX_PATH || (|path| == MAX_PATH && raw[OFFSET] == 0))
            && (Accepts(path) ==> Decoded(Layout(path), Length(path)) == Decoded(raw, addrlen))
  {
    var path := Decoded(raw, addrlen).Path();
    if addrlen > OFFSET {
      assert raw[OFFSET..addrlen][0] == raw[OFFSET];
      assert raw[OFFSET] != 0 ==> path == CString(raw[OFFSET..addrlen]) && path != [] && path[0] == raw[OFFSET];
      assert raw[OFFSET] == 0 ==> Abstract(path);
    }
    if Accepts(path) {
      RoundTrip(path);
    }
  }

  /** A pathname of full length, which binds and is reported without a NUL, cannot be sent to. */
  lemma FullPathnameIsRefused(c: byte)
    requires c != 0
    ensures var path := seq(MAX_PATH, _ => c);
            && Decoded(FAMILY + path + Zeros(STORAGE - OFFSET - MAX_PATH), OFFSET + MAX_PATH) == Str(path)
            && !Accepts(path)
  {
    var path: seq<byte> := seq(MAX_PATH, _ => c);
    var raw := FAMILY + path + Zeros(STORAGE - OFFSET - MAX_PATH);
    assert raw[..OFFSET] == FAMILY;
    assert raw[OFFSET..OFFSET + MAX_PATH] == path;
    assert path[..MAX_PATH] == path;
    CStringIs(path, MAX_PATH);
  }
}
