/// RelightingEffectApp: the keyboard controls of the local relighting
/// application (background mode, show mode, toggles and the HDR list), its
/// error strings and its colour argument.
module RelightEffect {
  import opened CStrings
  import opened Engine
  import opened RelightCommon

  /// `b`: the next of the five background modes, in unsigned arithmetic.
  function NextBackground(m: u32): (r: u32)
  {
    (Wrap(m as int + 1) as int % 5) as u32
  }

  /// The background mode is always one of the five, five presses come back
  /// to where they started, and the largest unsigned value wraps to 0.
  lemma {:induction false} BackgroundCycles(m: u32)
    ensures NextBackground(m) < 5
    ensures m < 5 ==> NextBackground(m) as int == (m as int + 1) % 5
    ensures m < 5 ==> NextBackground(NextBackground(NextBackground(NextBackground(NextBackground(m))))) == m
    ensures m == 0xFFFF_FFFF ==> NextBackground(m) == 0
  {
    if m < 5 {
      WrapSmall(m as int + 1);
      var b1 := NextBackground(m);
      assert b1 as int == (m as int + 1) % 5;
      assert NextBackground(0) == 1 && NextBackground(1) == 2 && NextBackground(2) == 3
        && NextBackground(3) == 4 && NextBackground(4) == 0 by {
        WrapSmall(1); WrapSmall(2); WrapSmall(3); WrapSmall(4); WrapSmall(5);
      }
    }
  }

  /// Values that fit are their own wrap.
  lemma {:induction false} WrapSmall(x: int)
    requires 0 <= x < 0x1_0000_0000
    ensures Wrap(x) as int == x
  {
  }

  /// `(m_hdrIndex + 1) % unsigned(m_hdrFiles.size())`.
  function NextIndex(idx: u32, size: nat): (r: u32)
    requires 0 < size < 0x1_0000_0000
    ensures r as int < size
  {
    (Wrap(idx as int + 1) as int % size) as u32
  }

  /// `erase(begin() + k)`.
  function Erase(files: seq<string>, k: nat): (r: seq<string>)
    requires k < |files|
  {
    files[..k] + files[k + 1..]
  }

  lemma {:induction false} EraseFacts(files: seq<string>, k: nat)
    requires k < |files|
    ensures |Erase(files, k)| == |files| - 1
    ensures forall j :: 0 <= j < |files| - 1 ==> Erase(files, k)[j] == if j < k then files[j] else files[j + 1]
    ensures multiset(Erase(files, k)) == multiset(files) - multiset{files[k]}
  {
    assert files == files[..k] + [files[k]] + files[k + 1..];
  }

  /// The HDR list, the index into it, and whether the list ran out.
  datatype Cycled = Cycled(files: seq<string>, idx: u32, quit: bool)

  predicate AllUnreadable(rd: map<string, Status>, files: seq<string>)
  {
    forall k :: 0 <= k < |files| ==> !Readable(rd, files[k])
  }

  /// Lines 915-920 as written: erase the unreadable file at the index and
  /// reduce the index modulo the new size.  `None` is the modulus by zero
  /// that follows erasing the last file.
  function AdvanceAsWritten(files: seq<string>, idx: u32, rd: map<string, Status>): (r: Option<Cycled>)
    requires idx as int < |files|
    decreases |files|
  {
    if Readable(rd, files[idx]) then Some(Cycled(files, idx, false))
    else
      var rest := Erase(files, idx as int);
      if rest == [] then None
      else AdvanceAsWritten(rest, (idx as int % |rest|) as u32, rd)
  }

  /// The loop with the emptiness test made before the modulus, so that
  /// running out of files leads to `errQuit` at line 921 as intended.
  function Advance(files: seq<string>, idx: u32, rd: map<string, Status>): (r: Cycled)
    requires idx as int < |files|
    decreases |files|
  {
    if Readable(rd, files[idx]) then Cycled(files, idx, false)
    else
      var rest := Erase(files, idx as int);
      if rest == [] then Cycled([], idx, true)
      else Advance(rest, (idx as int % |rest|) as u32, rd)
  }

  lemma {:induction false} EraseUnreadable(files: seq<string>, k: nat, rd: map<string, Status>)
    requires k < |files| && !Readable(rd, files[k])
    ensures AllUnreadable(rd, Erase(files, k)) <==> AllUnreadable(rd, files)
  {
    EraseFacts(files, k);
    var rest := Erase(files, k);
    if AllUnreadable(rd, rest) {
      forall j | 0 <= j < |files| ensures !Readable(rd, files[j]) {
        if j < k { assert files[j] == rest[j]; }
        else if j > k { assert files[j] == rest[j - 1]; }
      }
    }
  }

  /// As written, the loop divides by zero exactly when no file of the list
  /// can be read; otherwise it does what the corrected loop does.
  lemma {:induction false} AdvanceAsWrittenDividesByZero(files: seq<string>, idx: u32, rd: map<string, Status>)
    requires idx as int < |files|
    ensures AdvanceAsWritten(files, idx, rd).None? <==> AllUnreadable(rd, files)
    ensures AdvanceAsWritten(files, idx, rd).Some? ==> AdvanceAsWritten(files, idx, rd).value == Advance(files, idx, rd)
    decreases |files|
  {
    if !Readable(rd, files[idx]) {
      var rest := Erase(files, idx as int);
      EraseUnreadable(files, idx as int, rd);
      if rest != [] {
        AdvanceAsWrittenDividesByZero(rest, (idx as int % |rest|) as u32, rd);
      }
    }
  }

  /// A one-file list whose file cannot be read reaches the modulus by zero.
  lemma {:induction false} ModulusByZero()
    ensures AdvanceAsWritten(["a.hdr"], 0, map["a.hdr" := ErrRead]) == None
  {
  }

  /// The corrected loop quits exactly when no file can be read, and then
  /// leaves the list empty; otherwise the index points at a readable file.
  lemma {:induction false} AdvanceLands(files: seq<string>, idx: u32, rd: map<string, Status>)
    requires idx as int < |files|
    ensures var r := Advance(files, idx, rd);
      && (r.quit <==> AllUnreadable(rd, files))
      && (r.quit ==> r.files == [])
      && (!r.quit ==> r.idx as int < |r.files| && Readable(rd, r.files[r.idx]))
    decreases |files|
  {
    if !Readable(rd, files[idx]) {
      var rest := Erase(files, idx as int);
      EraseUnreadable(files, idx as int, rd);
      if rest != [] {
        AdvanceLands(rest, (idx as int % |rest|) as u32, rd);
      }
    }
  }

  /// Only unreadable files are erased: a readable file stays in the list,
  /// and what left it could not be read.
  lemma {:induction false} AdvanceKeeps(files: seq<string>, idx: u32, rd: map<string, Status>)
    requires idx as int < |files|
    ensures var r := Advance(files, idx, rd);
      && multiset(r.files) <= multiset(files)
      && (forall x :: x in multiset(files) - multiset(r.files) ==> !Readable(rd, x))
    decreases |files|
  {
    if !Readable(rd, files[idx]) {
      var rest := Erase(files, idx as int);
      EraseFacts(files, idx as int);
      if rest != [] {
        AdvanceKeeps(rest, (idx as int % |rest|) as u32, rd);
      }
    }
  }

  /// The name the `z` key looks for.
  const Studio: string := "vkl_mid.hdr"

  /// `std::string::npos != s.rfind(pat)`: `pat` occurs in `s`.
  predicate Occurs(s: string, pat: string)
    decreases |s|
  {
    (|pat| <= |s| && s[..|pat|] == pat) || (s != [] && Occurs(s[1..], pat))
  }

  /// The first file from `from` on whose name contains the studio name.
  function StudioIndex(files: seq<string>, from: nat): (r: Option<nat>)
    decreases |files| - from
    ensures r.Some? ==> from <= r.value < |files| && Occurs(files[r.value], Studio)
    ensures r.Some? ==> forall j :: from <= j < r.value ==> !Occurs(files[j], Studio)
    ensures r.None? ==> forall j :: from <= j < |files| ==> !Occurs(files[j], Studio)
  {
    if from >= |files| then None
    else if Occurs(files[from], Studio) then Some(from)
    else StudioIndex(files, from + 1)
  }

  /// Line 905 as written: `(unsigned)((i ? i : m_hdrIndex) - 1)`, with the
  /// subtraction in `size_t` and the result cut to 32 bits.
  function ZIndexAsWritten(idx: u32, i: nat): (r: u32)
  {
    Wrap(((if i != 0 then i else idx as int) - 1) % 0x1_0000_0000_0000_0000)
  }

  /// The index `z` evidently means to set: one before the studio file, so
  /// that the `n` code after it lands on that file, wrapping from the end
  /// when it is the first.
  function ZIndex(size: nat, i: nat): (r: u32)
  {
    Wrap((if i != 0 then i else size) - 1)
  }

  /// With the corrected index, `z` then `n` land on the studio file.
  lemma {:induction false} ZJumps(size: nat, i: nat)
    requires i < size < 0x1_0000_0000
    ensures NextIndex(ZIndex(size, i), size) as int == i
  {
    var j := if i != 0 then i else size;
    WrapSmall(j - 1);
    assert ZIndex(size, i) as int == j - 1;
    WrapSmall(j);
    assert NextIndex(ZIndex(size, i), size) as int == j % size;
    if i == 0 {
      ModSelf(size);
    } else {
      ModSmall(i, size);
    }
  }

  lemma {:induction false} ModSelf(n: int)
    requires 0 < n
    ensures n % n == 0
  {
  }

  /// As written, `z` lands on the studio file unless that file is the
  /// first; then it stays on the current file.
  lemma {:induction false} ZAsWritten(idx: u32, size: nat, i: nat)
    requires i < size < 0x1_0000_0000
    ensures i != 0 ==> NextIndex(ZIndexAsWritten(idx, i), size) as int == i
    ensures i == 0 ==> NextIndex(ZIndexAsWritten(idx, i), size) as int == idx as int % size
  {
    var x := if i != 0 then i else idx as int;
    ZIndexAsWrittenValue(x);
    assert ZIndexAsWritten(idx, i) == Wrap((x - 1) % 0x1_0000_0000_0000_0000);
    WrapSmall(x);
    if i != 0 {
      ModSmall(i, size);
    }
  }

  lemma {:induction false} ModSmall(a: int, n: int)
    requires 0 <= a < n
    ensures a % n == a
  {
  }

  /// One below `x` in `size_t`, cut to 32 bits, then one above it in
  /// `unsigned`, is `x` again.
  lemma {:induction false} ZIndexAsWrittenValue(x: int)
    requires 0 <= x < 0x1_0000_0000
    ensures Wrap(Wrap((x - 1) % 0x1_0000_0000_0000_0000) as int + 1) as int == x
  {
    if x == 0 {
      assert (x - 1) % 0x1_0000_0000_0000_0000 == 0xFFFF_FFFF_FFFF_FFFF;
      assert Wrap(0xFFFF_FFFF_FFFF_FFFF) as int == 0xFFFF_FFFF;
    } else {
      assert (x - 1) % 0x1_0000_0000_0000_0000 == x - 1;
      WrapSmall(x - 1);
      WrapSmall(x);
    }
  }

  /// Two files with the studio file first, the second one shown: `z` keeps
  /// showing the second.
  lemma {:induction false} ZStaysPut()
    ensures StudioIndex([Studio, "b.hdr"], 0) == Some(0)
    ensures NextIndex(ZIndexAsWritten(1, 0), 2) == 1
  {
    StudioFirst();
    ZBackToSecond();
  }

  lemma {:induction false} StudioFirst()
    ensures StudioIndex([Studio, "b.hdr"], 0) == Some(0)
  {
    assert Occurs(Studio, Studio);
  }

  /// From index 1 and a studio file at 0, the index goes back to 0 and the
  /// `n` code after it, in a list of two, to 1.
  lemma {:induction false} ZBackToSecond()
    ensures NextIndex(ZIndexAsWritten(1, 0), 2) == 1
  {
    WrapSmall(0);
    WrapSmall(1);
    assert ZIndexAsWritten(1, 0) == 0;
  }

  /// The index `z` leaves for the `n` code as written (line 905): one
  /// before the studio file, or unchanged when there is none.
  function StartIndexAsWritten(key: int, files: seq<string>, idx: u32): u32
  {
    if key == 'z' as int then
      match StudioIndex(files, 0)
      case Some(i) => ZIndexAsWritten(idx, i)
      case None => idx
    else idx
  }

  /// Lines 914-920 as written: step the index modulo the list's size, then
  /// erase unreadable files.  `None` is a modulus by zero, at line 914 on an
  /// empty list or at line 919 once the last file is erased.
  function StepAsWritten(files: seq<string>, idx: u32, rd: map<string, Status>): (r: Option<Cycled>)
    requires |files| < 0x1_0000_0000
  {
    if files == [] then None
    else AdvanceAsWritten(files, NextIndex(idx, |files|), rd)
  }

  /// As written, `n` divides by zero exactly when no file of the list can be
  /// read (an empty list included); otherwise it lands on a readable file
  /// without quitting, as the corrected loop does.
  lemma {:induction false} StepAsWrittenLands(files: seq<string>, idx: u32, rd: map<string, Status>)
    requires |files| < 0x1_0000_0000
    ensures StepAsWritten(files, idx, rd).None? <==> AllUnreadable(rd, files)
    ensures StepAsWritten(files, idx, rd).Some? ==>
      var r := StepAsWritten(files, idx, rd).value;
      && r == Advance(files, NextIndex(idx, |files|), rd)
      && !r.quit && r.idx as int < |r.files| && Readable(rd, r.files[r.idx])
  {
    if files != [] {
      var start := NextIndex(idx, |files|);
      AdvanceAsWrittenDividesByZero(files, start, rd);
      AdvanceLands(files, start, rd);
    }
  }

  /// The result of `errorStringFromCode`: the SDK's text for a code that is
  /// not positive, else a line of the application's table.
  datatype ErrorText = SdkText(code: int) | Text(s: string)

  /// The table of lines 724-729, codes with their texts.
  const Lut: seq<(int, string)> := [
    (3, "There was a problem reading a file"),
    (4, "There was a problem writing a file"),
    (1, "The user chose to quit the application"),
    (2, "There was a problem with the command-line arguments")
  ]

  const Unknown: string := "UNKNOWN ERROR"

  function LutFind(code: int, k: nat): (r: string)
    decreases |Lut| - k
  {
    if k >= |Lut| then Unknown
    else if Lut[k].0 == code then Lut[k].1
    else LutFind(code, k + 1)
  }

  function ErrorString(code: int): (r: ErrorText)
  {
    if code <= 0 then SdkText(code) else Text(LutFind(code, 0))
  }

  /// Each application error has its own text from the table; every other
  /// positive code is unknown.
  lemma {:induction false} ErrorStrings(code: int)
    requires code > 0
    ensures ErrorString(code) == Text(Unknown) <==> code > 4
    ensures code <= 4 ==> exists k :: 0 <= k < |Lut| && Lut[k] == (code, ErrorString(code).s)
  {
    if code == 1 { assert Lut[2] == (code, ErrorString(code).s); }
    else if code == 2 { assert Lut[3] == (code, ErrorString(code).s); }
    else if code == 3 { assert Lut[0] == (code, ErrorString(code).s); }
    else if code == 4 { assert Lut[1] == (code, ErrorString(code).s); }
  }

  /// The four texts differ, so the text tells which error it was.
  lemma {:induction false} ErrorStringsDistinct(a: int, b: int)
    requires 0 < a <= 4 && 0 < b <= 4 && ErrorString(a) == ErrorString(b)
    ensures a == b
  {
  }

  /// `errorStringFromCode` (lines 719-734).
  method ErrorStringFromCode(code: int) returns (r: ErrorText)
    ensures r == ErrorString(code)
  {
    if code <= 0 {
      return SdkText(code);
    }
    var k := 0;
    while k < |Lut|
      invariant 0 <= k <= |Lut| && LutFind(code, k) == LutFind(code, 0)
    {
      if Lut[k].0 == code {
        return Text(Lut[k].1);
      }
      k := k + 1;
    }
    r := Text(Unknown);
  }

  /// What `ReadColor` returns and leaves in `*color`.
  datatype Color = Color(ok: bool, color: int)

  /// `ReadColor` (lines 384-393); `scanned` is what `sscanf(str, "0x%x")`
  /// converts, if anything.
  function ReadColor(str: string, scanned: Option<int>): (r: Color)
  {
    if StrCaseEq("gray", str) then Color(true, 0x00808080)
    else match scanned
      case Some(v) => Color(true, v)
      case None => Color(false, -1)
  }

  /// "gray" in any case is mid grey whatever `sscanf` would make of it,
  /// and a failed parse leaves the colour at -1.
  lemma {:induction false} ReadColorGray(str: string, scanned: Option<int>)
    ensures Lower(str) == "gray" ==> ReadColor(str, scanned) == Color(true, 0x00808080)
    ensures !ReadColor(str, scanned).ok ==> ReadColor(str, scanned).color == -1 && Lower(str) != "gray"
  {
    StrCaseEqIsLowerEq("gray", str);
    assert Lower("gray") == "gray";
  }

  /// The application object's state that `processKey` changes; pan, field
  /// of view and frame period are floating point and left out.
  class EffectApp {
    var showMode: u32
    var pauseFrame: bool
    var autorotate: bool
    var showFPS: bool
    var backgroundMode: u32
    var hdrIndex: u32
    var hdrFiles: seq<string>

    function View(): View
      reads this
    {
      RelightCommon.View(showMode, pauseFrame, autorotate, showFPS)
    }

    /// The constructor leaves `m_hdrIndex` unset: `index` is what it holds.
    constructor (index: u32)
      ensures View() == InitialView && backgroundMode == 0 && hdrIndex == index && hdrFiles == []
    {
      showMode := ShowOutput;
      pauseFrame, autorotate, showFPS := false, false, false;
      backgroundMode := 0;
      hdrIndex := index;
      hdrFiles := [];
    }

    /// The search of the `z` case: the first file with the studio name.
    method FindStudio() returns (found: Option<nat>)
      ensures found == StudioIndex(hdrFiles, 0)
    {
      var i := 0;
      while i < |hdrFiles|
        invariant 0 <= i <= |hdrFiles| && StudioIndex(hdrFiles, i) == StudioIndex(hdrFiles, 0)
      {
        if Occurs(hdrFiles[i], Studio) {
          return Some(i);
        }
        i := i + 1;
      }
      found := None;
    }

    /// The `n` case (lines 912-923) with the emptiness test before the
    /// modulus.
    method NextHdr(rd: map<string, Status>) returns (quit: bool)
      requires 0 < |hdrFiles| < 0x1_0000_0000
      modifies this
      ensures Cycled(hdrFiles, hdrIndex, quit) == Advance(old(hdrFiles), NextIndex(old(hdrIndex), |old(hdrFiles)|), rd)
      ensures View() == old(View()) && backgroundMode == old(backgroundMode)
    {
      hdrIndex := NextIndex(hdrIndex, |hdrFiles|);
      ghost var goal := Advance(hdrFiles, hdrIndex, rd);
      while hdrFiles != [] && !Readable(rd, hdrFiles[hdrIndex])
        invariant hdrFiles != [] ==> hdrIndex as int < |hdrFiles| && Advance(hdrFiles, hdrIndex, rd) == goal
        invariant hdrFiles == [] ==> goal == Cycled([], hdrIndex, true)
        invariant View() == old(View()) && backgroundMode == old(backgroundMode)
        decreases |hdrFiles|
      {
        hdrFiles := Erase(hdrFiles, hdrIndex as int);
        if hdrFiles == [] {
          break;
        }
        hdrIndex := (hdrIndex as int % |hdrFiles|) as u32;
      }
      quit := hdrFiles == [];
    }

    /// The `n` case (lines 912-923) as written; `undefined` is the modulus
    /// by zero, after which the model says nothing about the state.
    method NextHdrAsWritten(rd: map<string, Status>) returns (undefined: bool)
      requires |hdrFiles| < 0x1_0000_0000
      modifies this
      ensures undefined <==> StepAsWritten(old(hdrFiles), old(hdrIndex), rd).None?
      ensures !undefined ==> Cycled(hdrFiles, hdrIndex, false) == StepAsWritten(old(hdrFiles), old(hdrIndex), rd).value
      ensures View() == old(View()) && backgroundMode == old(backgroundMode)
    {
      if hdrFiles == [] {
        return true;
      }
      hdrIndex := NextIndex(hdrIndex, |hdrFiles|);
      ghost var goal := AdvanceAsWritten(hdrFiles, hdrIndex, rd);
      while !Readable(rd, hdrFiles[hdrIndex])
        invariant hdrIndex as int < |hdrFiles| && AdvanceAsWritten(hdrFiles, hdrIndex, rd) == goal
        invariant View() == old(View()) && backgroundMode == old(backgroundMode)
        decreases |hdrFiles|
      {
        hdrFiles := Erase(hdrFiles, hdrIndex as int);
        if hdrFiles == [] {
          return true;
        }
        hdrIndex := (hdrIndex as int % |hdrFiles|) as u32;
      }
      undefined := false;
    }

    /// `processKey` (lines 845-945) as written, without the floating-point
    /// keys, whose effect is on pan and field of view only.  `z` and `n`
    /// never reach `errQuit` at line 921: the list can only run out through
    /// the modulus by zero, reported as `undefined`.
    method ProcessKey(key: int, rd: map<string, Status>) returns (err: AppErr, undefined: bool)
      requires key == 'z' as int || key == 'n' as int ==> |hdrFiles| < 0x1_0000_0000
      modifies this
      ensures View() == KeyView(old(View()), key)
      ensures backgroundMode == if key == 'b' as int then NextBackground(old(backgroundMode)) else old(backgroundMode)
      ensures key == 'z' as int || key == 'n' as int ==>
        var step := StepAsWritten(old(hdrFiles), StartIndexAsWritten(key, old(hdrFiles), old(hdrIndex)), rd);
        && (undefined <==> step.None?)
        && (!undefined ==> Cycled(hdrFiles, hdrIndex, false) == step.value && err == AppNone)
      ensures key != 'z' as int && key != 'n' as int ==>
        !undefined && hdrFiles == old(hdrFiles) && hdrIndex == old(hdrIndex)
        && err == if QuitKey(key) then AppQuit else AppNone
    {
      err, undefined := AppNone, false;
      if key == 'q' as int || key == Esc {
        return AppQuit, false;
      } else if key == 'r' as int {
        autorotate := !autorotate;
      } else if key == ' ' as int || key == 'p' as int {
        pauseFrame := !pauseFrame;
      } else if key == 'i' as int {
        showMode := ToggleInput(showMode);
      } else if key == 'o' as int {
        showMode := ShowOutput;
      } else if key == 'f' as int {
        showFPS := !showFPS;
      } else if key == 'b' as int {
        backgroundMode := NextBackground(backgroundMode);
      } else if key == 'z' as int || key == 'n' as int {
        if key == 'z' as int {
          var found := FindStudio();
          if found.Some? {
            hdrIndex := ZIndexAsWritten(hdrIndex, found.value);
          }
        }
        undefined := NextHdrAsWritten(rd);
      }
    }
  }
}
