/** The in-memory part of termios/termios.go: the Termios record of a
    terminal's modes, the flag updates of CfMakeRaw, NoEcho and Cbreak, and
    the speed accessors. The ioctl that CfMakeRaw, NoEcho and Cbreak end
    with is not modelled; its outcome is a parameter. */
module Termios {
  import opened Outcomes

  /** Number of control characters (termios.go:25). */
  const ControlCharactersNum: nat := 32

  /** Error texts; an absent error (Go's nil) is None. */
  const UninitializedMsg: string := "termios must be initialized"
  const BaudInvalidMsg: string := "BAUD EINVAL"

  // c_cflag constants (cfflags.go), written in hexadecimal.
  const B57600: bv32 := 0x1001
  const MaxBaud: bv32 := 0x100F
  const CSize: bv32 := 0x30
  const CS8: bv32 := 0x30
  const ParEnb: bv32 := 0x100
  const CBaudEx: bv32 := 0x1000
  const CBaud: bv32 := 0x100F

  // c_iflag constants (iflags.go).
  const IgnBrk: bv32 := 0x1
  const BrkInt: bv32 := 0x2
  const ParMrk: bv32 := 0x8
  const IStrip: bv32 := 0x20
  const InlCr: bv32 := 0x40
  const ICrNl: bv32 := 0x100
  const IXon: bv32 := 0x400

  // c_oflag constant (oflags.go).
  const OPost: bv32 := 0x1

  // c_lflag constants (lflags.go).
  const ISig: bv32 := 0x1
  const ICanon: bv32 := 0x2
  const Echo: bv32 := 0x8
  const EchoNl: bv32 := 0x40
  const IExten: bv32 := 0x8000

  // Indices into c_cc (cc_vars.go).
  const VMin: nat := 4
  const VTime: nat := 5

  /** The bits CfMakeRaw clears in each flag word. */
  const RawInputClear: bv32 := IgnBrk | BrkInt | ParMrk | IStrip | InlCr | ICrNl | IXon
  const RawOutputClear: bv32 := OPost
  const RawLocalClear: bv32 := Echo | EchoNl | ICanon | ISig | IExten
  const RawControlClear: bv32 := CSize | ParEnb

  /** x with the bits of mask cleared (Go's x &^ mask). */
  function Clear(x: bv32, mask: bv32): (r: bv32)
    ensures r & mask == 0
    ensures r & !mask == x & !mask
  {
    x & !mask
  }

  /** The control word of raw mode: CSIZE and PARENB cleared, then CS8 set;
      every other bit is kept. */
  function RawControl(c: bv32): (r: bv32)
    ensures r & CSize == CS8 && r & ParEnb == 0
    ensures r & !(CSize | ParEnb) == c & !(CSize | ParEnb)
  {
    Clear(c, RawControlClear) | CS8
  }

  /** The local word after NoEcho or Cbreak with enable set: the bit b
      toggled, so doing it twice restores the word; no other bit changes. */
  function Toggle(l: bv32, b: bv32): (r: bv32)
    ensures r & !b == l & !b
    ensures r ^ b == l
  {
    l ^ b
  }

  /** The local word after NoEcho or Cbreak with enable clear: the bit b
      set, no other bit changed. */
  function Set(l: bv32, b: bv32): (r: bv32)
    ensures r & !b == l & !b
    ensures r & b == b
  {
    l | b
  }

  /** NoEcho or Cbreak with enable set, done twice, gives back the
      original local word. */
  lemma ToggleTwice(l: bv32, b: bv32)
    ensures Toggle(Toggle(l, b), b) == l
  {
  }

  /** Making a terminal raw a second time changes none of its flag words. */
  lemma RawModeIdempotent(i: bv32, o: bv32, c: bv32, l: bv32)
    ensures Clear(Clear(i, RawInputClear), RawInputClear) == Clear(i, RawInputClear)
    ensures Clear(Clear(o, RawOutputClear), RawOutputClear) == Clear(o, RawOutputClear)
    ensures Clear(Clear(l, RawLocalClear), RawLocalClear) == Clear(l, RawLocalClear)
    ensures RawControl(RawControl(c)) == RawControl(c)
  {
  }

  /** The speed stored in a control word: its CBAUD and CBAUDEX bits, so no
      bit outside CBAUD. */
  function SpeedOf(c: bv32): (r: bv32)
    ensures r & !CBaud == 0
    ensures r & CBaud == c & CBaud
  {
    c & (CBaud | CBaudEx)
  }

  /** The control word with its speed bits replaced by speed. Every bit of
      speed is OR-ed in, so a speed with bits outside CBAUD sets those
      too. */
  function WithSpeed(c: bv32, speed: bv32): (r: bv32)
    ensures r & CBaud == speed & CBaud
    ensures r & !CBaud == (c & !CBaud) | (speed & !CBaud)
  {
    Clear(c, CBaud | CBaudEx) | speed
  }

  /** For a speed within CBAUD, SpeedOf reads back what WithSpeed stored,
      and no other bit of the control word changes. */
  lemma SpeedReadBack(c: bv32, speed: bv32)
    requires speed & !CBaud == 0
    ensures SpeedOf(WithSpeed(c, speed)) == speed
    ensures WithSpeed(c, speed) & !CBaud == c & !CBaud
  {
  }

  /** The guard of both speed setters, which looks at the stored input
      speed and not at the new speed: reject when bits outside CBAUD are
      set below B57600, or the speed is above the largest baud constant. */
  predicate BaudInvalid(ispeed: bv32) {
    (ispeed & !CBaud != 0 && ispeed < B57600) || ispeed > MaxBaud
  }

  /** The Termios record. The link to the original record, used only by
      Reset, is left out. */
  class Termios {
    var iflag: bv32
    var oflag: bv32
    var cflag: bv32
    var lflag: bv32
    var line: bv8
    const cc: array<bv8>
    var ispeed: bv32
    var ospeed: bv32

    ghost predicate Valid()
      reads this
    {
      cc.Length == ControlCharactersNum
    }

    /** A zero record, as Go's &Termios{}. */
    constructor()
      ensures Valid() && fresh(cc)
      ensures iflag == 0 && oflag == 0 && cflag == 0 && lflag == 0 && line == 0
      ensures ispeed == 0 && ospeed == 0
      ensures forall k :: 0 <= k < cc.Length ==> cc[k] == 0
    {
      iflag, oflag, cflag, lflag, line := 0, 0, 0, 0, 0;
      ispeed, ospeed := 0, 0;
      cc := new bv8[ControlCharactersNum](_ => 0);
    }

    method GetInputFlags() returns (r: bv32, err: Option<string>)
      ensures r == iflag && err == None
    {
      return iflag, None;
    }

    method GetOutputFlags() returns (r: bv32, err: Option<string>)
      ensures r == oflag && err == None
    {
      return oflag, None;
    }

    method GetControlFlags() returns (r: bv32, err: Option<string>)
      ensures r == cflag && err == None
    {
      return cflag, None;
    }

    method GetLocalModesFlags() returns (r: bv32, err: Option<string>)
      ensures r == lflag && err == None
    {
      return lflag, None;
    }

    method GetLineDiscipline() returns (r: bv8, err: Option<string>)
      ensures r == line && err == None
    {
      return line, None;
    }

    /** The control characters, copied out as Go copies the array. */
    method GetControlCharacters() returns (r: seq<bv8>, err: Option<string>)
      requires Valid()
      ensures |r| == ControlCharactersNum && r == cc[..] && err == None
    {
      return cc[..], None;
    }

    method GetInputSpeed() returns (r: bv32, err: Option<string>)
      ensures r == ispeed && err == None
    {
      return ispeed, None;
    }

    method GetInputOutputSpeed() returns (r: bv32, err: Option<string>)
      ensures r == ospeed && err == None
    {
      return ospeed, None;
    }
  }

  /** The output speed: the speed bits of the control word, or an error for
      a missing record. */
  method CfGetOutputSpeed(t: Termios?) returns (speed: bv32, err: Option<string>)
    ensures t == null ==> speed == 0 && err == Some(UninitializedMsg)
    ensures t != null ==> speed == SpeedOf(t.cflag) && err == None
  {
    if t == null {
      return 0, Some(UninitializedMsg);
    }
    speed := SpeedOf(t.cflag);
    err := None;
  }

  /** Linux keeps one speed for both directions: the same as the output speed. */
  method CfGetInputSpeed(t: Termios?) returns (speed: bv32, err: Option<string>)
    ensures t == null ==> speed == 0 && err == Some(UninitializedMsg)
    ensures t != null ==> speed == SpeedOf(t.cflag) && err == None
  {
    speed, err := CfGetOutputSpeed(t);
  }

  /** Raw mode: the flag bits of raw mode cleared, CS8 set, VMIN 1 and VTIME
      0; the outcome is that of the ioctl, setAttr. */
  method CfMakeRaw(t: Termios?, setAttr: Option<string>) returns (err: Option<string>)
    requires t != null ==> t.Valid()
    modifies if t == null then {} else {t, t.cc}
    ensures t == null ==> err == Some(UninitializedMsg)
    ensures t != null ==> err == setAttr
    ensures t != null ==> t.iflag == Clear(old(t.iflag), RawInputClear)
    ensures t != null ==> t.oflag == Clear(old(t.oflag), RawOutputClear)
    ensures t != null ==> t.lflag == Clear(old(t.lflag), RawLocalClear)
    ensures t != null ==> t.cflag == RawControl(old(t.cflag))
    ensures t != null ==> t.cc[..] == old(t.cc[..])[VMin := 1][VTime := 0]
    ensures t != null ==> t.line == old(t.line) && t.ispeed == old(t.ispeed) && t.ospeed == old(t.ospeed)
  {
    if t == null {
      return Some(UninitializedMsg);
    }
    t.iflag := Clear(t.iflag, RawInputClear);
    t.oflag := Clear(t.oflag, RawOutputClear);
    t.lflag := Clear(t.lflag, RawLocalClear);
    t.cflag := RawControl(t.cflag);
    t.cc[VMin] := 1;
    t.cc[VTime] := 0;
    return setAttr;
  }

  /** NoEcho: enable toggles ECHO, otherwise ECHO is set; only the local
      word changes. */
  method NoEcho(t: Termios?, enable: bool, setAttr: Option<string>) returns (err: Option<string>)
    modifies t
    ensures t == null ==> err == Some(UninitializedMsg)
    ensures t != null ==> err == setAttr && t.lflag == (if enable then Toggle(old(t.lflag), Echo) else Set(old(t.lflag), Echo))
    ensures t != null ==> t.iflag == old(t.iflag) && t.oflag == old(t.oflag) && t.cflag == old(t.cflag)
    ensures t != null ==> t.line == old(t.line) && t.ispeed == old(t.ispeed) && t.ospeed == old(t.ospeed)
  {
    if t == null {
      return Some(UninitializedMsg);
    }
    if enable {
      t.lflag := Toggle(t.lflag, Echo);
    } else {
      t.lflag := Set(t.lflag, Echo);
    }
    return setAttr;
  }

  /** Cbreak: the same for ICANON. */
  method Cbreak(t: Termios?, enable: bool, setAttr: Option<string>) returns (err: Option<string>)
    modifies t
    ensures t == null ==> err == Some(UninitializedMsg)
    ensures t != null ==> err == setAttr && t.lflag == (if enable then Toggle(old(t.lflag), ICanon) else Set(old(t.lflag), ICanon))
    ensures t != null ==> t.iflag == old(t.iflag) && t.oflag == old(t.oflag) && t.cflag == old(t.cflag)
    ensures t != null ==> t.line == old(t.line) && t.ispeed == old(t.ispeed) && t.ospeed == old(t.ospeed)
  {
    if t == null {
      return Some(UninitializedMsg);
    }
    if enable {
      t.lflag := Toggle(t.lflag, ICanon);
    } else {
      t.lflag := Set(t.lflag, ICanon);
    }
    return setAttr;
  }

  /** Sets the output speed and the speed bits of the control word, unless
      the stored input speed fails the guard. */
  method CfSetOutputSpeed(t: Termios?, speed: bv32) returns (err: Option<string>)
    modifies t
    ensures t == null ==> err == Some(UninitializedMsg)
    ensures t != null && BaudInvalid(old(t.ispeed)) ==> err == Some(BaudInvalidMsg) && unchanged(t)
    ensures t != null && !BaudInvalid(old(t.ispeed)) ==>
      err == None && t.ospeed == speed && t.cflag == WithSpeed(old(t.cflag), speed)
    ensures t != null ==> t.iflag == old(t.iflag) && t.oflag == old(t.oflag) && t.lflag == old(t.lflag)
    ensures t != null ==> t.line == old(t.line) && t.ispeed == old(t.ispeed)
  {
    if t == null {
      return Some(UninitializedMsg);
    }
    if BaudInvalid(t.ispeed) {
      return Some(BaudInvalidMsg);
    }
    t.ospeed := speed;
    t.cflag := WithSpeed(t.cflag, speed);
    return None;
  }

  /** Sets the input speed; the speed 0 copies the output speed instead and
      leaves the control word alone. */
  method CfSetInputSpeed(t: Termios?, speed: bv32) returns (err: Option<string>)
    modifies t
    ensures t == null ==> err == Some(UninitializedMsg)
    ensures t != null && BaudInvalid(old(t.ispeed)) ==> err == Some(BaudInvalidMsg) && unchanged(t)
    ensures t != null && !BaudInvalid(old(t.ispeed)) && speed == 0 ==>
      err == None && t.ispeed == old(t.ospeed) && t.cflag == old(t.cflag)
    ensures t != null && !BaudInvalid(old(t.ispeed)) && speed != 0 ==>
      err == None && t.ispeed == speed && t.cflag == WithSpeed(old(t.cflag), speed)
    ensures t != null ==> t.iflag == old(t.iflag) && t.oflag == old(t.oflag) && t.lflag == old(t.lflag)
    ensures t != null ==> t.line == old(t.line) && t.ospeed == old(t.ospeed)
  {
    if t == null {
      return Some(UninitializedMsg);
    }
    if BaudInvalid(t.ispeed) {
      return Some(BaudInvalidMsg);
    }
    t.ispeed := speed;
    if speed == 0 {
      t.ispeed := t.ospeed;
    } else {
      t.cflag := WithSpeed(t.cflag, speed);
    }
    return None;
  }
}
