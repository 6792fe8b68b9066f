/// What the two relighting applications share: their error codes, the
/// integer and boolean view state the keyboard controls, and the keys both
/// understand.
module RelightCommon {
  import opened CStrings
  import opened Engine

  /// `RelightApp::Err`: the application's own codes are positive, and an
  /// SDK status is passed through (`app_errFromVfxStatus`).
  datatype AppErr = AppNone | AppQuit | AppFlag | AppRead | AppWrite | AppSdk(status: Status)

  /// `app_errFromVfxStatus`: success is `errNone`.
  function FromVfx(s: Status): (r: AppErr)
    ensures r == AppNone <==> s == Success
  {
    if s == Success then AppNone else AppSdk(s)
  }

  /// The positive value of an application code, 0 for `errNone`; an SDK
  /// error has the SDK's non-positive value, which this model does not fix.
  function AppCode(e: AppErr): (r: Option<int>)
  {
    match e
    case AppNone => Some(0)
    case AppQuit => Some(1)
    case AppFlag => Some(2)
    case AppRead => Some(3)
    case AppWrite => Some(4)
    case AppSdk(_) => None
  }

  /// What `ReadImage` returns for an HDR file; names not listed read.
  function ReadStatus(rd: map<string, Status>, name: string): Status
  {
    if name in rd then rd[name] else Success
  }

  predicate Readable(rd: map<string, Status>, name: string)
  {
    ReadStatus(rd, name) == Success
  }

  /// 32-bit unsigned values, for the fields the source declares `unsigned`.
  newtype u32 = x: int | 0 <= x < 0x1_0000_0000

  /// Unsigned 32-bit arithmetic wraps around.
  function Wrap(x: int): (r: u32)
    ensures r as int == x % 0x1_0000_0000
  {
    (x % 0x1_0000_0000) as u32
  }

  /// Wrapping ignores multiples of 2^32, and wrapping an operand first
  /// changes nothing: a chain of unsigned operations may wrap once, at the end.
  lemma {:induction false} WrapArithmetic(x: int, y: int)
    ensures Wrap(x + 0x1_0000_0000) == Wrap(x)
    ensures Wrap(Wrap(x) as int + y) == Wrap(x + y)
  {
    var q, r := x / 0x1_0000_0000, x % 0x1_0000_0000;
    assert x == q * 0x1_0000_0000 + r;
    ModShift(r + y, q);
    ModShift(x, 1);
  }

  /// Adding a multiple of 2^32 leaves the remainder as it is.
  lemma {:induction false} ModShift(z: int, q: int)
    ensures (z + q * 0x1_0000_0000) % 0x1_0000_0000 == z % 0x1_0000_0000
  {
    var m := 0x1_0000_0000;
    var d, e := z / m, z % m;
    assert z + q * m == (d + q) * m + e;
  }

  const Esc: int := 0x1b
  const ShowOutput: u32 := 0
  const ShowInput: u32 := 1

  /// `'q'` and ESC quit.
  predicate QuitKey(key: int)
  {
    key == 'q' as int || key == Esc
  }

  /// `~m & SHOW_INPUT` on an unsigned `m`, bit by bit.
  function ToggleInput(m: u32): (r: u32)
  {
    ((!(m as bv32)) & 1) as int as u32
  }

  /// The toggle keeps only the complement of the low bit: input exactly
  /// when `m` was even.
  lemma {:induction false} ToggleInputParity(m: u32)
    ensures ToggleInput(m) == if m % 2 == 0 then ShowInput else ShowOutput
  {
    var b := m as bv32;
    assert (!b) & 1 == if b & 1 == 0 then 1 else 0;
    assert (b & 1) as int == (m as int) % 2 by {
      BvLowBit(m);
    }
  }

  lemma {:induction false} BvLowBit(m: u32)
    ensures ((m as bv32) & 1) as int == (m as int) % 2
  {
  }

  /// The integer and boolean state `processKey` changes in both
  /// applications.
  datatype View = View(showMode: u32, pause: bool, autorotate: bool, showFPS: bool)

  /// What the constructor sets: output shown, nothing paused or toggled.
  const InitialView: View := View(ShowOutput, false, false, false)

  /// The cases of `processKey` common to both applications, on the view.
  function KeyView(v: View, key: int): (r: View)
  {
    if key == 'r' as int then v.(autorotate := !v.autorotate)
    else if key == ' ' as int || key == 'p' as int then v.(pause := !v.pause)
    else if key == 'i' as int then v.(showMode := ToggleInput(v.showMode))
    else if key == 'o' as int then v.(showMode := ShowOutput)
    else if key == 'f' as int then v.(showFPS := !v.showFPS)
    else v
  }

  /// The keys that flip one piece of the view.
  predicate ToggleKey(key: int)
  {
    key in {'r' as int, ' ' as int, 'p' as int, 'i' as int, 'f' as int}
  }

  /// A view whose show mode is one of the two the application uses.
  predicate Shown(v: View)
  {
    v.showMode == ShowOutput || v.showMode == ShowInput
  }

  /// Pressing a toggle key twice gives back the view.
  lemma {:induction false} ToggleTwice(v: View, key: int)
    requires ToggleKey(key) && Shown(v)
    ensures KeyView(KeyView(v, key), key) == v
  {
    if key == 'i' as int {
      ToggleInputParity(v.showMode);
      ToggleInputParity(ToggleInput(v.showMode));
    }
  }

  /// No key takes the show mode outside input and output, and `i`/`o`
  /// bring any show mode back to one of them.
  lemma {:induction false} KeyKeepsShown(v: View, key: int)
    ensures Shown(v) ==> Shown(KeyView(v, key))
    ensures key == 'i' as int || key == 'o' as int ==> Shown(KeyView(v, key))
    ensures key == 'i' as int ==> (KeyView(v, key).showMode == ShowInput <==> v.showMode % 2 == 0)
  {
    ToggleInputParity(v.showMode);
  }

  /// Quitting, and any key without a case, leaves the view alone; every
  /// toggle key changes it.
  lemma {:induction false} KeyChanges(v: View, key: int)
    ensures KeyView(v, key) != v <==> ToggleKey(key) || (key == 'o' as int && v.showMode != ShowOutput)
  {
    if key == 'i' as int {
      ToggleInputParity(v.showMode);
    }
  }
}
