/** Fixed-size, NUL-padded character buffers: the `comm` and `cgroup` arrays of
    the kernel map values, as the in-kernel programs fill them and as the Go
    collectors read them back. A byte is modelled as the character of the same
    value; NUL is '\0'. */
module CBuffers {

  function Min(a: int, b: int): int
  {
    if a <= b then a else b
  }

  /** Where Go's bytes.IndexByte finds the first NUL: its position, or -1 when there is none. */
  function IndexNul(b: seq<char>): (n: int)
    ensures n == -1 <==> (forall i :: 0 <= i < |b| ==> b[i] != '\0')
    ensures n != -1 ==> 0 <= n < |b| && b[n] == '\0' && forall i :: 0 <= i < n ==> b[i] != '\0'
  {
    if b == [] then -1
    else if b[0] == '\0' then 0
    else
      var k := IndexNul(b[1..]);
      if k == -1 then -1 else k + 1
  }

  /** `cStr` (pkg/collector/cpu/helpers.go and pkg/collector/memory/helpers.go):
      the text before the first NUL, or the whole buffer when it holds none.
      The result holds no NUL, is a prefix of the buffer, and stops only at a NUL or
      at the end of the buffer. */
  function CStr(b: seq<char>): (s: string)
    ensures s <= b
    ensures forall i :: 0 <= i < |s| ==> s[i] != '\0'
    ensures |s| < |b| ==> b[|s|] == '\0'
  {
    var n := IndexNul(b);
    if n == -1 then b else b[..n]
  }

  /** The three properties of CStr's contract determine its result. */
  lemma {:induction false} CStrUnique(b: seq<char>, s: string)
    requires s <= b
    requires forall i :: 0 <= i < |s| ==> s[i] != '\0'
    requires |s| < |b| ==> b[|s|] == '\0'
    ensures CStr(b) == s
  {
  }

  /** The sentinel the in-kernel programs write when the cgroup cannot be resolved. */
  const PLACEHOLDER: string := "n/a"

  /** The `len`-byte buffer write_placeholder leaves (bpf/cpu_hotspot.c and
      bpf/memory_faults.c): read back as a C string it says "n/a" (cut to the
      buffer when that is shorter than 3), and every byte after the sentinel is NUL. */
  function Placeholder(len: nat): (buf: seq<char>)
    ensures |buf| == len
    ensures CStr(buf) == PLACEHOLDER[..Min(len, |PLACEHOLDER|)]
    ensures forall i :: |PLACEHOLDER| <= i < len ==> buf[i] == '\0'
  {
    var buf := seq(len, i requires 0 <= i < len => if i < |PLACEHOLDER| then PLACEHOLDER[i] else '\0');
    CStrUnique(buf, PLACEHOLDER[..Min(len, |PLACEHOLDER|)]);
    buf
  }

  /** `write_placeholder`: a null or empty destination is left alone; otherwise the
      buffer is zeroed and its first three bytes become 'n', '/', 'a' as far as they fit. */
  method WritePlaceholder(dst: array?<char>)
    modifies dst
    ensures dst != null ==> dst[..] == Placeholder(dst.Length)
  {
    if dst == null || dst.Length == 0 {
      return;
    }
    var i := 0;
    while i < dst.Length
      invariant 0 <= i <= dst.Length
      invariant forall j :: 0 <= j < i ==> dst[j] == '\0'
    {
      dst[i] := '\0';
      i := i + 1;
    }
    if dst.Length > 0 {
      dst[0] := 'n';
    }
    if dst.Length > 1 {
      dst[1] := '/';
    }
    if dst.Length > 2 {
      dst[2] := 'a';
    }
    assert forall j :: 0 <= j < dst.Length ==> dst[j] == Placeholder(dst.Length)[j];
  }

  /** The `len`-byte buffer left by copying the C string `src` into a zeroed buffer
      with a bounded string copy (`bpf_core_read_str` into the memset buffer of
      `snapshot_cgroup`, and `bpf_get_current_comm`): at most `len - 1` characters
      of it, then NUL padding. Read back with CStr it gives the source's C string,
      cut to `len - 1` characters. */
  function ReadStr(src: seq<char>, len: nat): (buf: seq<char>)
    ensures |buf| == len
    ensures len > 0 ==> CStr(buf) == CStr(src)[..Min(|CStr(src)|, len - 1)]
  {
    var s := CStr(src);
    var n := if len == 0 then 0 else Min(|s|, len - 1);
    var buf := s[..n] + seq(len - n, _ => '\0');
    if len == 0 then buf
    else
      assert buf[n] == '\0';
      CStrUnique(buf, s[..n]);
      buf
  }

  /** A buffer whose first byte is NUL: what the C handlers treat as empty. */
  predicate IsEmptyBuf(buf: seq<char>)
  {
    |buf| == 0 || buf[0] == '\0'
  }

  /** What `snapshot_cgroup` finds: the name of the task's default-hierarchy cgroup
      node (or of its parent when the leaf name cannot be read), or nothing. */
  datatype CgroupLookup = Resolved(name: seq<char>) | Unresolved

  /** The cgroup buffer after snapshot_cgroup, with write_placeholder as the
      fallback when it fails: the resolved name copied as by ReadStr, or the
      "n/a" placeholder. */
  function CgroupLabel(lookup: CgroupLookup, len: nat): (buf: seq<char>)
    ensures |buf| == len
    ensures lookup.Unresolved? && len >= |PLACEHOLDER| ==> CStr(buf) == PLACEHOLDER
    ensures lookup.Resolved? && len > 0 ==> CStr(buf) == CStr(lookup.name)[..Min(|CStr(lookup.name)|, len - 1)]
  {
    match lookup
    case Resolved(name) => ReadStr(name, len)
    case Unresolved => Placeholder(len)
  }

  /** snapshot_cgroup on a buffer, falling back to write_placeholder: the
      resolved name is copied in, or the placeholder written. */
  method FillCgroup(dst: array<char>, lookup: CgroupLookup)
    modifies dst
    ensures dst[..] == CgroupLabel(lookup, dst.Length)
  {
    match lookup
    case Resolved(name) =>
      var buf := ReadStr(name, dst.Length);
      forall i | 0 <= i < dst.Length {
        dst[i] := buf[i];
      }
    case Unresolved =>
      WritePlaceholder(dst);
  }

  /** `snapshot_cgroup` or `write_placeholder` on a fresh `len`-byte buffer, whose bytes
      are then copied into the map value. */
  method ReadCgroup(lookup: CgroupLookup, len: nat) returns (buf: seq<char>)
    ensures buf == CgroupLabel(lookup, len)
  {
    var dst := new char[len];
    FillCgroup(dst, lookup);
    buf := dst[..];
  }
}
