/// String helpers shared, in identical copies, by the sample applications:
/// case-insensitive comparison as `strcasecmp` does it, suffix tests on file
/// names, the quoted base name used in status lines, and the packing of a
/// codec name into a FOURCC integer.
///
/// C strings are modelled as `string` values without NUL characters; a byte
/// of a C string is the low eight bits of the character's code.
module CStrings {

  datatype Option<T> = None | Some(value: T)

  /// Concatenation regroups; stated once so that long event logs need not
  /// be regrouped by the solver on its own.
  lemma {:induction false} AppendAssoc<T>(a: seq<T>, b: seq<T>, c: seq<T>)
    ensures (a + b) + c == a + (b + c)
  {
  }

  /// Two adjacent slices make one.
  lemma {:induction false} SliceJoin<T>(s: seq<T>, a: nat, b: nat, c: nat)
    requires a <= b <= c <= |s|
    ensures s[a..b] + s[b..c] == s[a..c]
  {
  }

  /// A slice from `a` is its part up to `b` followed by the rest.
  lemma {:induction false} SliceSplit<T>(s: seq<T>, a: nat, b: nat)
    requires a <= b <= |s|
    ensures s[a..b] + s[b..] == s[a..]
  {
  }

  /// A slice grows by its next element.
  lemma {:induction false} SliceSnoc<T>(s: seq<T>, a: nat, b: nat)
    requires a <= b < |s|
    ensures s[a..b + 1] == s[a..b] + [s[b]]
  {
  }

  /// `tolower` in the "C" locale: only 'A'..'Z' change.
  function ToLower(c: char): (r: char)
    ensures 'A' <= c <= 'Z' ==> 'a' <= r <= 'z' && r as int == c as int + 32
    ensures !('A' <= c <= 'Z') ==> r == c
  {
    if 'A' <= c <= 'Z' then (c as int + 32) as char else c
  }

  /// The string with every character passed through `ToLower`.
  function Lower(s: string): (r: string)
  {
    seq(|s|, i requires 0 <= i < |s| => ToLower(s[i]))
  }

  /// Folding keeps the length, leaves no capital letter behind, keeps
  /// every other character and is idempotent.
  lemma {:induction false} LowerFolds(s: string)
    ensures |Lower(s)| == |s|
    ensures forall i :: 0 <= i < |s| ==> !('A' <= Lower(s)[i] <= 'Z')
    ensures forall i :: 0 <= i < |s| && !('A' <= s[i] <= 'Z') ==> Lower(s)[i] == s[i]
    ensures Lower(Lower(s)) == Lower(s)
  {
    var l := Lower(s);
    forall i | 0 <= i < |s| ensures Lower(l)[i] == l[i] {
      assert l[i] == ToLower(s[i]);
    }
  }

  lemma {:induction false} LowerAppend(a: string, b: string)
    ensures Lower(a + b) == Lower(a) + Lower(b)
  {
    var l, r := Lower(a + b), Lower(a) + Lower(b);
    assert |l| == |r|;
    forall i | 0 <= i < |l| ensures l[i] == r[i] {
      if i < |a| { assert (a + b)[i] == a[i]; } else { assert (a + b)[i] == b[i - |a|]; }
    }
  }

  /// `strcasecmp(a, b) == 0`: same length, and equal after case folding at
  /// every position.
  predicate StrCaseEq(a: string, b: string)
  {
    |a| == |b| && forall i :: 0 <= i < |a| ==> ToLower(a[i]) == ToLower(b[i])
  }

  lemma {:induction false} StrCaseEqIsLowerEq(a: string, b: string)
    ensures StrCaseEq(a, b) <==> Lower(a) == Lower(b)
  {
    if Lower(a) == Lower(b) {
      assert |a| == |b|;
      forall i | 0 <= i < |a| ensures ToLower(a[i]) == ToLower(b[i]) {
        assert Lower(a)[i] == Lower(b)[i];
      }
    }
    if StrCaseEq(a, b) {
      assert forall i :: 0 <= i < |a| ==> Lower(a)[i] == Lower(b)[i];
    }
  }

  /// Exact (case-sensitive) suffix.
  predicate EndsWith(s: string, t: string)
  {
    |t| <= |s| && s[|s| - |t|..] == t
  }

  /// `HasSuffix(str, suf)`: false when `str` is shorter than `suf`, otherwise
  /// a case-insensitive comparison of the tail of `str` with `suf`.
  function HasSuffix(str: string, suf: string): (r: bool)
    ensures r ==> |suf| <= |str|
  {
    |str| >= |suf| && StrCaseEq(suf, str[|str| - |suf|..])
  }

  /// `HasSuffix` is an exact suffix test on the case-folded strings.
  lemma {:induction false} HasSuffixIsFoldedEndsWith(str: string, suf: string)
    ensures HasSuffix(str, suf) <==> EndsWith(Lower(str), Lower(suf))
  {
    if |str| >= |suf| {
      var tail := str[|str| - |suf|..];
      StrCaseEqIsLowerEq(suf, tail);
      LowerSuffix(str, |str| - |suf|);
    }
  }

  lemma {:induction false} LowerSuffix(s: string, a: nat)
    requires a <= |s|
    ensures Lower(s)[a..] == Lower(s[a..])
  {
    var l, r := Lower(s)[a..], Lower(s[a..]);
    assert |l| == |r|;
    forall k | 0 <= k < |l| ensures l[k] == r[k] {
      assert s[a..][k] == s[a + k];
    }
  }

  /// Any string ends with itself and with its own case variants, whatever
  /// comes before it.
  lemma {:induction false} HasSuffixOfAppend(prefix: string, s: string, suf: string)
    requires StrCaseEq(s, suf)
    ensures HasSuffix(prefix + s, suf)
  {
    LowerAppend(prefix, s);
    StrCaseEqIsLowerEq(s, suf);
    assert Lower(prefix + s)[|prefix + s| - |suf|..] == Lower(s);
  }

  /// The varargs list of `HasOneOfTheseSuffixes`, as a predicate.
  predicate AnySuffix(str: string, sufs: seq<string>)
  {
    exists i :: 0 <= i < |sufs| && HasSuffix(str, sufs[i])
  }

  /// `HasOneOfTheseSuffixes`: walks the suffix list and stops at the first
  /// one that matches.
  method HasOneOfTheseSuffixes(str: string, sufs: seq<string>) returns (matches: bool)
    ensures matches <==> AnySuffix(str, sufs)
  {
    matches := false;
    var k := 0;
    while k < |sufs|
      invariant 0 <= k <= |sufs|
      invariant !matches
      invariant forall j :: 0 <= j < k ==> !HasSuffix(str, sufs[j])
    {
      if HasSuffix(str, sufs[k]) {
        matches := true;
        break;
      }
      k := k + 1;
    }
  }

  const ImageSuffixes: seq<string> := [".bmp", ".jpg", ".jpeg", ".png"]

  /// `IsImageFile`: the name ends in .bmp, .jpg, .jpeg or .png, in any case.
  function IsImageFile(str: string): (r: bool)
    ensures r <==> (HasSuffix(str, ".bmp") || HasSuffix(str, ".jpg")
                    || HasSuffix(str, ".jpeg") || HasSuffix(str, ".png"))
  {
    assert ImageSuffixes[0] == ".bmp" && ImageSuffixes[1] == ".jpg";
    assert ImageSuffixes[2] == ".jpeg" && ImageSuffixes[3] == ".png";
    AnySuffix(str, ImageSuffixes)
  }

  lemma {:induction false} UpperCaseImageNames()
    ensures IsImageFile("photo.PNG") && IsImageFile("a.JpEg") && !IsImageFile("clip.mp4")
  {
    assert HasSuffix("photo.PNG", ".png");
    assert HasSuffix("a.JpEg", ".jpeg");
    assert !HasSuffix("clip.mp4", ".bmp") by { assert "clip.mp4"[5] != 'b'; }
    assert !HasSuffix("clip.mp4", ".jpg") by { assert "clip.mp4"[5] != 'j'; }
    assert !HasSuffix("clip.mp4", ".jpeg") by { assert "clip.mp4"[3] != '.'; }
    assert !HasSuffix("clip.mp4", ".png") by { assert "clip.mp4"[5] != 'p'; }
  }

  /// `find_last_of('/')`.
  function LastIndexOf(s: string, c: char): (r: Option<nat>)
    ensures r.None? ==> c !in s
    ensures r.Some? ==> r.value < |s| && s[r.value] == c && c !in s[r.value + 1..]
  {
    if s == [] then None
    else if s[|s| - 1] == c then Some(|s| - 1)
    else
      var r := LastIndexOf(s[..|s| - 1], c);
      assert s == s[..|s| - 1] + [s[|s| - 1]];
      if r.Some? then assert s[r.value + 1..] == s[..|s| - 1][r.value + 1..] + [s[|s| - 1]]; r
      else r
  }

  /// `basenamequote`: a space and a double quote, the part of `full` after its
  /// last '/', and a closing double quote (the POSIX build, where '/' is the
  /// only separator).
  function Basenamequote(full: string): (r: string)
    ensures |r| >= 3 && r[..2] == " \"" && r[|r| - 1] == '"'
    ensures BaseNameOf(full, r[2..|r| - 1])
  {
    var b := match LastIndexOf(full, '/')
      case None => full
      case Some(n) => full[n + 1..];
    assert BaseNameOf(full, b);
    var r := " \"" + b + "\"";
    assert r[2..|r| - 1] == b;
    r
  }

  /// `b` is the last path component of `full`: a suffix without '/', that is
  /// all of `full` or is preceded by a '/'.
  predicate BaseNameOf(full: string, b: string)
  {
    && EndsWith(full, b)
    && '/' !in b
    && (|b| == |full| || full[|full| - |b| - 1] == '/')
  }

  /// The last path component is unique, so the contract of `Basenamequote`
  /// pins the result down.
  lemma {:induction false} BaseNameUnique(full: string, b1: string, b2: string)
    requires BaseNameOf(full, b1) && BaseNameOf(full, b2)
    ensures b1 == b2
  {
    if |b1| < |b2| {
      assert false;
    } else if |b2| < |b1| {
      assert false;
    }
  }

  /// One byte of a C string.
  function Byte(c: char): (b: nat)
    ensures b < 256
  {
    (c as int) % 256
  }

  /// Reading four little-endian bytes through the `int` member of a union:
  /// a signed 32-bit value.
  function Int32OfBytes(b0: nat, b1: nat, b2: nat, b3: nat): int
    requires b0 < 256 && b1 < 256 && b2 < 256 && b3 < 256
  {
    var u := b0 + 256 * b1 + 65536 * b2 + 16777216 * b3;
    if u < 0x8000_0000 then u else u - 0x1_0000_0000
  }

  /// Byte `k` (0 = lowest address) of the 32-bit two's-complement form of `i`.
  function ByteOf(i: int, k: nat): (b: nat)
    requires k < 4
    ensures b < 256
  {
    var u := i % 0x1_0000_0000;
    if k == 0 then u % 256
    else if k == 1 then (u / 256) % 256
    else if k == 2 then (u / 65536) % 256
    else (u / 16777216) % 256
  }

  lemma {:induction false} ByteOfInt32OfBytes(b0: nat, b1: nat, b2: nat, b3: nat)
    requires b0 < 256 && b1 < 256 && b2 < 256 && b3 < 256
    ensures var i := Int32OfBytes(b0, b1, b2, b3);
      ByteOf(i, 0) == b0 && ByteOf(i, 1) == b1 && ByteOf(i, 2) == b2 && ByteOf(i, 3) == b3
  {
    var u := b0 + 256 * b1 + 65536 * b2 + 16777216 * b3;
    var i := Int32OfBytes(b0, b1, b2, b3);
    assert i % 0x1_0000_0000 == u;
    assert u / 256 == b1 + 256 * b2 + 65536 * b3;
    assert u / 65536 == b2 + 256 * b3;
    assert u / 16777216 == b3;
  }

  /// Byte `n` of the union after the copy loop: the n-th character for
  /// `n < min(|str|, 4)`, zero otherwise.
  function FourccByte(str: string, n: nat): (b: nat)
    ensures b < 256
  {
    if n < |str| && n < 4 then Byte(str[n]) else 0
  }

  /// The value `StringToFourcc` returns.
  function Fourcc(str: string): int
  {
    Int32OfBytes(FourccByte(str, 0), FourccByte(str, 1), FourccByte(str, 2), FourccByte(str, 3))
  }

  /// `StringToFourcc`: a zeroed four-byte union, the first min(4, size)
  /// characters copied into bytes n-1 down to 0, and the union read as an int.
  method StringToFourcc(str: string) returns (code: int)
    ensures code == Fourcc(str)
  {
    var c := new nat[4](_ => 0);
    var n := if |str| < 4 then |str| else 4;
    while n > 0
      invariant 0 <= n <= 4 && n <= |str|
      invariant forall k :: 0 <= k < n ==> c[k] == 0
      invariant forall k :: n <= k < 4 ==> c[k] == FourccByte(str, k)
    {
      n := n - 1;
      c[n] := Byte(str[n]);
    }
    code := Int32OfBytes(c[0], c[1], c[2], c[3]);
  }

  /// Unpacking the code gives back the first four characters, zero-padded.
  lemma {:induction false} FourccRoundTrip(str: string, k: nat)
    requires k < 4
    ensures ByteOf(Fourcc(str), k) == if k < |str| then Byte(str[k]) else 0
  {
    ByteOfInt32OfBytes(FourccByte(str, 0), FourccByte(str, 1), FourccByte(str, 2), FourccByte(str, 3));
  }

  /// Characters beyond the fourth do not change the code.
  lemma {:induction false} FourccIgnoresTail(str: string, tail: string)
    requires |str| >= 4
    ensures Fourcc(str + tail) == Fourcc(str)
  {
    assert (str + tail)[..4] == str[..4];
  }

  lemma {:induction false} DefaultCodec()
    ensures Fourcc("avc1") == 0x31637661
  {
  }
}
