/** The name-entry screen: a text buffer edited by the keys pressed in each
    frame until Enter confirms a non-empty name, or the window closes. */
module NameEntry {

  /** A character is appended only while the buffer is shorter than this, so
      no name is ever longer. */
  const MaxNameLength: nat := 49

  /** The key codes appended as characters: from the space (32) up to 'z' (122). */
  const FirstPrintable: int := 32
  const LastPrintable: int := 122

  predicate IsPrintableCode(code: int) {
    FirstPrintable <= code <= LastPrintable
  }

  /** One key press, as the editor sees it. */
  datatype Key = Backspace | Enter | Code(code: int)

  /** The keys one pass of the entry loop reads: Backspace and the pressed key
      codes, from the input polled before the pass, and Enter, read after the
      pass has polled again. */
  datatype Frame = Frame(backspace: bool, codes: set<int>, enter: bool)

  /** The buffers the editor can reach: bounded, and made of printable
      characters only. */
  predicate ValidBuffer(buf: seq<char>) {
    && |buf| <= MaxNameLength
    && forall i :: 0 <= i < |buf| ==> IsPrintableCode(buf[i] as int)
  }

  /** The effect of one key on the buffer. */
  function ApplyKey(buf: seq<char>, k: Key): (r: seq<char>)
    ensures ValidBuffer(buf) ==> ValidBuffer(r)
    // Backspace: a no-op on the empty buffer, otherwise exactly the last
    // character goes and the prefix stays
    ensures k.Backspace? && |buf| == 0 ==> r == buf
    ensures k.Backspace? && |buf| > 0 ==> r + [buf[|buf| - 1]] == buf
    // a printable code below the cap adds the character with that code
    ensures k.Code? && IsPrintableCode(k.code) && |buf| < MaxNameLength ==>
              |r| == |buf| + 1 && r[..|buf|] == buf && r[|buf|] as int == k.code
    // any other code, or any code once the cap is reached, changes nothing
    ensures k.Code? && (!IsPrintableCode(k.code) || |buf| >= MaxNameLength) ==> r == buf
    ensures k.Enter? ==> r == buf
  {
    match k
    case Backspace => if |buf| > 0 then buf[..|buf| - 1] else buf
    case Enter => buf
    case Code(c) =>
      if IsPrintableCode(c) && |buf| < MaxNameLength then buf + [c as char] else buf
  }

  /** The keys applied in order. */
  function ApplyKeys(buf: seq<char>, keys: seq<Key>): seq<char>
    decreases |keys|
  {
    if |keys| == 0 then buf else ApplyKeys(ApplyKey(buf, keys[0]), keys[1..])
  }

  /** The printable codes of `codes` from `from` upwards, in ascending order,
      as key presses: the order in which a frame examines them. */
  function CodeKeys(codes: set<int>, from: int): seq<Key>
    decreases LastPrintable + 1 - from
  {
    if from > LastPrintable then []
    else (if from in codes then [Code(from)] else []) + CodeKeys(codes, from + 1)
  }

  /** The keys of one frame in the order the frame handles them: Backspace
      first, then the printable codes in ascending order, Enter last. */
  function FrameKeys(f: Frame): seq<Key> {
    (if f.backspace then [Backspace] else []) + CodeKeys(f.codes, FirstPrintable)
      + (if f.enter then [Enter] else [])
  }

  /** The buffer after one frame. */
  function FrameBuffer(buf: seq<char>, f: Frame): seq<char> {
    ApplyKeys(buf, FrameKeys(f))
  }

  /** A frame confirms the name when Enter is down and the buffer it leaves
      is not empty. */
  predicate Confirms(buf: seq<char>, f: Frame) {
    f.enter && |FrameBuffer(buf, f)| > 0
  }

  lemma {:induction false} ApplyKeysAppend(buf: seq<char>, a: seq<Key>, b: seq<Key>)
    ensures ApplyKeys(buf, a + b) == ApplyKeys(ApplyKeys(buf, a), b)
    decreases |a|
  {
    if |a| == 0 {
      assert a + b == b;
    } else {
      assert (a + b)[0] == a[0];
      assert (a + b)[1..] == a[1..] + b;
      ApplyKeysAppend(ApplyKey(buf, a[0]), a[1..], b);
    }
  }

  lemma {:induction false} ApplyKeysValid(buf: seq<char>, keys: seq<Key>)
    requires ValidBuffer(buf)
    ensures ValidBuffer(ApplyKeys(buf, keys))
    decreases |keys|
  {
    if |keys| > 0 {
      ApplyKeysValid(ApplyKey(buf, keys[0]), keys[1..]);
    }
  }

  /** A frame is its Backspace applied to the buffer, then its printable
      codes; Enter changes no buffer. */
  lemma FrameBufferSplit(buf: seq<char>, f: Frame)
    ensures FrameBuffer(buf, f)
              == ApplyKeys(if f.backspace then ApplyKey(buf, Backspace) else buf, CodeKeys(f.codes, FirstPrintable))
  {
    var pre := if f.backspace then [Backspace] else [];
    var post := if f.enter then [Enter] else [];
    var codes := CodeKeys(f.codes, FirstPrintable);
    assert ApplyKeys(buf, pre) == if f.backspace then ApplyKey(buf, Backspace) else buf;
    ApplyKeysAppend(buf, pre, codes);
    ApplyKeysAppend(buf, pre + codes, post);
    var mid := ApplyKeys(buf, pre + codes);
    assert ApplyKeys(mid, post) == mid;
  }

  /** Handling code `i` is one step of the fold over the codes from `i` up. */
  lemma CodeKeysStep(buf: seq<char>, codes: set<int>, i: int)
    requires FirstPrintable <= i <= LastPrintable
    ensures ApplyKeys(buf, CodeKeys(codes, i))
              == ApplyKeys(if i in codes && |buf| < MaxNameLength then buf + [i as char] else buf,
                           CodeKeys(codes, i + 1))
  {
    if i in codes {
      var rest := CodeKeys(codes, i + 1);
      assert CodeKeys(codes, i) == [Code(i)] + rest;
      assert ([Code(i)] + rest)[1..] == rest;
    } else {
      assert CodeKeys(codes, i) == CodeKeys(codes, i + 1);
    }
  }

  /** The printable-code part of a frame: every code from the space up to
      'z', in ascending order, appended while there is room. */
  method ProcessCodes(start: seq<char>, codes: set<int>) returns (next: seq<char>)
    ensures next == ApplyKeys(start, CodeKeys(codes, FirstPrintable))
    ensures ValidBuffer(start) ==> ValidBuffer(next)
  {
    next := start;
    var i := FirstPrintable;
    while i < LastPrintable + 1
      invariant FirstPrintable <= i <= LastPrintable + 1
      invariant ApplyKeys(next, CodeKeys(codes, i)) == ApplyKeys(start, CodeKeys(codes, FirstPrintable))
      invariant ValidBuffer(start) ==> ValidBuffer(next)
      decreases LastPrintable + 1 - i
    {
      CodeKeysStep(next, codes, i);
      if i in codes && |next| < MaxNameLength {
        assert next + [i as char] == ApplyKey(next, Code(i));
        next := next + [i as char];
      }
      i := i + 1;
    }
    assert CodeKeys(codes, i) == [];
  }

  /** One frame of the name-entry loop: Backspace, then every printable key
      code in ascending order, then the Enter check. */
  method ProcessFrame(buf: seq<char>, f: Frame) returns (next: seq<char>, confirmed: bool)
    ensures next == FrameBuffer(buf, f)
    ensures confirmed <==> Confirms(buf, f)
    ensures ValidBuffer(buf) ==> ValidBuffer(next)
  {
    var start := if f.backspace && |buf| > 0 then buf[..|buf| - 1] else buf;
    assert start == if f.backspace then ApplyKey(buf, Backspace) else buf;
    next := ProcessCodes(start, f.codes);
    FrameBufferSplit(buf, f);
    confirmed := f.enter && |next| > 0;
  }

  /** How name entry ends: Enter confirmed a name, or the window closed (the
      frames ran out) with the buffer as it stood. */
  datatype Capture = Confirmed(name: seq<char>) | Closed(partial: seq<char>) {
    function Text(): seq<char> {
      match this
      case Confirmed(n) => n
      case Closed(p) => p
    }
  }

  /** Name entry continued from buffer `buf` over the remaining frames. */
  function CaptureFrom(buf: seq<char>, frames: seq<Frame>): (r: Capture)
    requires ValidBuffer(buf)
    ensures ValidBuffer(r.Text())
    ensures r.Confirmed? ==> |r.name| > 0
    ensures |frames| == 0 ==> r == Closed(buf)
    decreases |frames|
  {
    if |frames| == 0 then Closed(buf)
    else
      var next := FrameBuffer(buf, frames[0]);
      ApplyKeysValid(buf, FrameKeys(frames[0]));
      if Confirms(buf, frames[0]) then Confirmed(next) else CaptureFrom(next, frames[1..])
  }

  /** Name entry as the screen runs it: the buffer starts empty. */
  function CaptureName(frames: seq<Frame>): (r: Capture)
    ensures ValidBuffer(r.Text())
    ensures r.Confirmed? ==> 0 < |r.name| <= MaxNameLength
    ensures |frames| == 0 ==> r == Closed([])
  {
    CaptureFrom([], frames)
  }

  /** The buffers of the entry loop run without stopping: the starting
      buffer, then the buffer after each frame. */
  function BufferTrace(buf: seq<char>, frames: seq<Frame>): (t: seq<seq<char>>)
    ensures |t| == |frames| + 1 && t[0] == buf
    ensures forall j :: 0 <= j < |frames| ==> t[j + 1] == FrameBuffer(t[j], frames[j])
    decreases |frames|
  {
    if |frames| == 0 then [buf]
    else [buf] + BufferTrace(FrameBuffer(buf, frames[0]), frames[1..])
  }

  /** A frame that does not confirm hands the loop on to the next frame with
      the buffer it left. */
  lemma CaptureFromStep(buf: seq<char>, frames: seq<Frame>)
    requires ValidBuffer(buf) && |frames| > 0 && !Confirms(buf, frames[0])
    ensures ValidBuffer(FrameBuffer(buf, frames[0]))
    ensures CaptureFrom(buf, frames) == CaptureFrom(FrameBuffer(buf, frames[0]), frames[1..])
    ensures BufferTrace(buf, frames) == [buf] + BufferTrace(FrameBuffer(buf, frames[0]), frames[1..])
  {
    ApplyKeysValid(buf, FrameKeys(frames[0]));
  }

  /** The trace from the second frame on is the tail of the whole trace. */
  lemma TraceShift(buf: seq<char>, frames: seq<Frame>)
    requires |frames| > 0
    ensures var t, t1 := BufferTrace(buf, frames), BufferTrace(FrameBuffer(buf, frames[0]), frames[1..]);
      forall j :: 0 <= j < |t1| ==> t1[j] == t[j + 1]
  {
  }

  /** The entry loop stops at the first frame that confirms, and returns the
      buffer that frame left. */
  lemma {:induction false} StopsAtFirstConfirm(buf: seq<char>, frames: seq<Frame>, k: nat)
    requires ValidBuffer(buf) && k < |frames|
    requires Confirms(BufferTrace(buf, frames)[k], frames[k])
    requires forall j :: 0 <= j < k ==> !Confirms(BufferTrace(buf, frames)[j], frames[j])
    ensures CaptureFrom(buf, frames) == Confirmed(BufferTrace(buf, frames)[k + 1])
    decreases k
  {
    var t := BufferTrace(buf, frames);
    if k == 0 {
      assert t[1] == FrameBuffer(buf, frames[0]);
    } else {
      assert !Confirms(t[0], frames[0]);
      CaptureFromStep(buf, frames);
      var next := FrameBuffer(buf, frames[0]);
      var t1 := BufferTrace(next, frames[1..]);
      TraceShift(buf, frames);
      forall j | 0 <= j < k - 1
        ensures !Confirms(t1[j], frames[1..][j])
      {
        assert t1[j] == t[j + 1];
      }
      assert t1[k - 1] == t[k] && frames[1..][k - 1] == frames[k];
      StopsAtFirstConfirm(next, frames[1..], k - 1);
      assert t1[k] == t[k + 1];
    }
  }

  /** When no frame confirms, entry ends with the window closed and the
      buffer the last frame left. */
  lemma {:induction false} ClosedWhenNeverConfirmed(buf: seq<char>, frames: seq<Frame>)
    requires ValidBuffer(buf)
    requires forall j :: 0 <= j < |frames| ==> !Confirms(BufferTrace(buf, frames)[j], frames[j])
    ensures CaptureFrom(buf, frames) == Closed(BufferTrace(buf, frames)[|frames|])
    decreases |frames|
  {
    if |frames| > 0 {
      var t := BufferTrace(buf, frames);
      assert !Confirms(t[0], frames[0]);
      CaptureFromStep(buf, frames);
      var t1 := BufferTrace(FrameBuffer(buf, frames[0]), frames[1..]);
      TraceShift(buf, frames);
      forall j | 0 <= j < |frames| - 1
        ensures !Confirms(t1[j], frames[1..][j])
      {
        assert t1[j] == t[j + 1] && frames[1..][j] == frames[j + 1];
      }
      assert t1[|frames| - 1] == t[|frames|];
      ClosedWhenNeverConfirmed(FrameBuffer(buf, frames[0]), frames[1..]);
    }
  }

  /** Typing a printable character and then Backspace restores the buffer,
      as long as the cap did not swallow the character. */
  lemma TypeThenErase(buf: seq<char>, c: int)
    requires IsPrintableCode(c) && |buf| < MaxNameLength
    ensures ApplyKey(ApplyKey(buf, Code(c)), Backspace) == buf
  {
  }

  /** A frame in which exactly one printable key is pressed. */
  function KeyFrame(c: char): Frame {
    Frame(false, {c as int}, false)
  }

  function TypingFrames(s: seq<char>): (fs: seq<Frame>)
    ensures |fs| == |s|
    ensures forall i :: 0 <= i < |s| ==> fs[i] == KeyFrame(s[i])
  {
    seq(|s|, i requires 0 <= i < |s| => KeyFrame(s[i]))
  }

  lemma KeyFrameBuffer(buf: seq<char>, c: char)
    requires IsPrintableCode(c as int)
    ensures FrameBuffer(buf, KeyFrame(c)) == ApplyKey(buf, Code(c as int))
  {
    var codes := {c as int};
    CodeKeysSingle(codes, c as int, FirstPrintable);
    var keys := FrameKeys(KeyFrame(c));
    assert keys == [Code(c as int)];
    assert keys[1..] == [];
    assert ApplyKeys(buf, keys) == ApplyKeys(ApplyKey(buf, keys[0]), []);
  }

  lemma {:induction false} CodeKeysSingle(codes: set<int>, c: int, from: int)
    requires codes == {c} && IsPrintableCode(c) && FirstPrintable <= from
    ensures CodeKeys(codes, from) == if from <= c then [Code(c)] else []
    decreases LastPrintable + 1 - from
  {
    if from <= LastPrintable {
      CodeKeysSingle(codes, c, from + 1);
    }
  }

  function Min(a: int, b: int): int {
    if a <= b then a else b
  }

  /** The buffer left by typing `s` onto `buf`: whatever fits under the cap. */
  function Typed(buf: seq<char>, s: seq<char>): seq<char>
    requires |buf| <= MaxNameLength
  {
    (buf + s)[..Min(|buf| + |s|, MaxNameLength)]
  }

  /** Typing a printable string one key per frame, then pressing Enter,
      confirms its first 49 characters, provided the string is not empty. */
  lemma TypedNameConfirmed(s: seq<char>)
    requires |s| > 0
    requires forall i :: 0 <= i < |s| ==> IsPrintableCode(s[i] as int)
    ensures CaptureName(TypingFrames(s) + [EnterFrame()]) == Confirmed(s[..Min(|s|, MaxNameLength)])
  {
    TypingNeverConfirms([], s, [EnterFrame()]);
    assert [] + s == s;
    var typed := Typed([], s);
    EnterConfirms(typed);
  }

  /** The frame in which only Enter is pressed. */
  function EnterFrame(): Frame {
    Frame(false, {}, true)
  }

  lemma EnterConfirms(buf: seq<char>)
    requires ValidBuffer(buf) && |buf| > 0
    ensures CaptureFrom(buf, [EnterFrame()]) == Confirmed(buf)
  {
    NoCodeKeys(FirstPrintable);
    var keys := FrameKeys(EnterFrame());
    assert keys == [Enter];
    assert keys[1..] == [];
    assert FrameBuffer(buf, EnterFrame()) == buf;
  }

  lemma {:induction false} TypingNeverConfirms(buf: seq<char>, s: seq<char>, rest: seq<Frame>)
    requires ValidBuffer(buf)
    requires forall i :: 0 <= i < |s| ==> IsPrintableCode(s[i] as int)
    ensures ValidBuffer(Typed(buf, s))
    ensures CaptureFrom(buf, TypingFrames(s) + rest) == CaptureFrom(Typed(buf, s), rest)
    decreases |s|
  {
    var fs := TypingFrames(s) + rest;
    if |s| == 0 {
      assert fs == rest;
      assert buf + s == buf;
    } else {
      KeyFrameBuffer(buf, s[0]);
      assert fs[0] == KeyFrame(s[0]);
      assert fs[1..] == TypingFrames(s[1..]) + rest;
      var next := ApplyKey(buf, Code(s[0] as int));
      assert !Confirms(buf, fs[0]);
      CaptureFromStep(buf, fs);
      assert forall i :: 0 <= i < |s[1..]| ==> s[1..][i] == s[i + 1];
      TypingNeverConfirms(next, s[1..], rest);
      TypedStep(buf, s);
    }
  }

  lemma TypedStep(buf: seq<char>, s: seq<char>)
    requires ValidBuffer(buf) && |s| > 0 && IsPrintableCode(s[0] as int)
    ensures Typed(ApplyKey(buf, Code(s[0] as int)), s[1..]) == Typed(buf, s)
  {
    var next := ApplyKey(buf, Code(s[0] as int));
    if |buf| < MaxNameLength {
      assert next == buf + [s[0]];
      assert next + s[1..] == buf + s;
    } else {
      assert next == buf;
      assert (buf + s)[..|buf|] == buf;
      assert (next + s[1..])[..|buf|] == buf;
    }
  }

  lemma {:induction false} NoCodeKeys(from: int)
    ensures CodeKeys({}, from) == []
    decreases LastPrintable + 1 - from
  {
    if from <= LastPrintable {
      NoCodeKeys(from + 1);
    }
  }

  /** Enter on an empty buffer confirms nothing, so a key that arrived with
      it is typed in the next pass and a later Enter confirms a name that
      holds it. */
  lemma EnterOnEmptyThenKey()
    ensures CaptureName([EnterFrame(), KeyFrame('A'), EnterFrame()]) == Confirmed("A")
  {
    NoCodeKeys(FirstPrintable);
    var keys := FrameKeys(EnterFrame());
    assert keys == [Enter] && keys[1..] == [];
    assert FrameBuffer([], EnterFrame()) == [];
    var frames := [EnterFrame(), KeyFrame('A'), EnterFrame()];
    assert CaptureFrom([], frames) == CaptureFrom([], frames[1..]);
    KeyFrameBuffer([], 'A');
    assert ApplyKey([], Code('A' as int)) == "A";
    assert frames[1..][1..] == [EnterFrame()];
    EnterConfirms("A");
  }
}
