/** The one-time-code screen of src/pages/OTPVerification.js: six input
    slots, typed and pasted input filtered by `isNaN`, a 60-second countdown
    that gates resending, and the guard in front of the verification
    request. The countdown's interval is an explicit `Tick`. */
module Otp {
  import opened Wrappers
  import opened JsText
  import opened JsNumber

  const Slots := 6
  const CountdownStart := 60
  const IncompleteCode := "Please enter the 6-digit code."
  const VerificationFailed := "OTP verification failed."
  const ServerUnreachable := "Unable to connect to server. Please try again later."
  const ChatsRoute := "/chats"

  /** `otp.join('')`. */
  function Join(slots: seq<string>): (code: string)
    ensures (forall i :: 0 <= i < |slots| ==> slots[i] == "") ==> code == ""
    ensures slots != [] ==> |slots[0]| <= |code| && code[..|slots[0]|] == slots[0]
  {
    if slots == [] then "" else slots[0] + Join(slots[1..])
  }

  /** Every slot holds at most one character. */
  predicate SingleChars(slots: seq<string>) {
    forall i :: 0 <= i < |slots| ==> |slots[i]| <= 1
  }

  /** Slots of at most one character each join to one character per slot
      exactly when none is empty. */
  lemma {:induction false} JoinFull(slots: seq<string>)
    requires SingleChars(slots)
    ensures |Join(slots)| <= |slots|
    ensures |Join(slots)| == |slots| <==> forall i :: 0 <= i < |slots| ==> |slots[i]| == 1
  {
    if slots != [] {
      JoinFull(slots[1..]);
      assert forall i :: 1 <= i < |slots| ==> slots[i] == slots[1..][i - 1];
    }
  }

  /** The characters `isNaN` accepts on their own: a digit, or whitespace,
      which `Number` reads as 0 (see `JsNumber.SingleCharIsNaN`). */
  predicate NumericChar(c: char) {
    IsDecimalDigit(c) || IsWhitespace(c)
  }

  /** The slots after a paste of `pasted` (already cut to six characters):
      slot `i` takes character `i` when that character is accepted, and
      keeps its value otherwise or when the paste is shorter. */
  function Paste(slots: seq<string>, pasted: string): (r: seq<string>)
    requires |slots| == Slots && |pasted| <= Slots
    ensures |r| == Slots
  {
    seq(Slots, i requires 0 <= i < Slots =>
      if i < |pasted| && NumericChar(pasted[i]) then [pasted[i]] else slots[i])
  }

  /** The slots after the paste loop has handled its first `n` characters. */
  function PasteFirst(slots: seq<string>, pasted: string, n: nat): (r: seq<string>)
    requires |slots| == Slots && n <= |pasted| <= Slots
    ensures |r| == Slots
  {
    if n == 0 then slots
    else
      var prev := PasteFirst(slots, pasted, n - 1);
      if NumericChar(pasted[n - 1]) then prev[n - 1 := [pasted[n - 1]]] else prev
  }

  /** After `n` steps the loop's slots agree with the paste below `n` and
      are untouched from `n` on. */
  lemma {:induction false} PasteFirstAll(slots: seq<string>, pasted: string, n: nat)
    requires |slots| == Slots && n <= |pasted| <= Slots
    ensures forall j :: 0 <= j < n ==> PasteFirst(slots, pasted, n)[j] == Paste(slots, pasted)[j]
    ensures forall j :: n <= j < Slots ==> PasteFirst(slots, pasted, n)[j] == slots[j]
    ensures n == |pasted| ==> PasteFirst(slots, pasted, n) == Paste(slots, pasted)
  {
    if n > 0 {
      PasteFirstAll(slots, pasted, n - 1);
    }
    if n == |pasted| {
      var a, b := PasteFirst(slots, pasted, n), Paste(slots, pasted);
      forall j | 0 <= j < Slots ensures a[j] == b[j] {
      }
    }
  }

  /** What a paste writes: a character `isNaN` accepts, and only such. */
  lemma PasteSlot(slots: seq<string>, pasted: string, i: nat)
    requires |slots| == Slots && |pasted| <= Slots && i < Slots
    ensures i >= |pasted| ==> Paste(slots, pasted)[i] == slots[i]
    ensures i < |pasted| && !IsNaN([pasted[i]]) ==> Paste(slots, pasted)[i] == [pasted[i]]
    ensures i < |pasted| && IsNaN([pasted[i]]) ==> Paste(slots, pasted)[i] == slots[i]
  {
    if i < |pasted| {
      SingleCharIsNaN(pasted[i]);
    }
  }

  /** `isNaN` lets an empty value and a space through: clearing a slot
      works, and a typed or pasted space is stored as if it were a digit. */
  lemma BlankValuesAccepted()
    ensures !IsNaN("") && !IsNaN(" ")
  {
    BlankIsZero("");
    SingleCharIsNaN(' ');
  }

  /** Pasting six digits fills the code with exactly them. */
  lemma PasteSixDigits(slots: seq<string>, pasted: string)
    requires |slots| == Slots && |pasted| == Slots
    requires forall i :: 0 <= i < Slots ==> IsDecimalDigit(pasted[i])
    ensures Join(Paste(slots, pasted)) == pasted
  {
    var r := Paste(slots, pasted);
    forall i | 0 <= i < Slots ensures r[i] == [pasted[i]] {
      PasteSlot(slots, pasted, i);
    }
    JoinSingles(r, pasted);
  }

  lemma {:induction false} JoinSingles(slots: seq<string>, s: string)
    requires |slots| == |s| && forall i :: 0 <= i < |s| ==> slots[i] == [s[i]]
    ensures Join(slots) == s
  {
    if s != [] {
      JoinSingles(slots[1..], s[1..]);
    }
  }

  /** One turn of the paste loop, with the test written as `isNaN`. */
  lemma PasteStep(slots: seq<string>, pasted: string, i: nat)
    requires |slots| == Slots && i < |pasted| <= Slots
    ensures !IsNaN([pasted[i]]) ==> PasteFirst(slots, pasted, i + 1) == PasteFirst(slots, pasted, i)[i := [pasted[i]]]
    ensures IsNaN([pasted[i]]) ==> PasteFirst(slots, pasted, i + 1) == PasteFirst(slots, pasted, i)
  {
    SingleCharIsNaN(pasted[i]);
  }

  /** The loop of `handlePaste` (lines 56-63) on a copy of the slots. */
  method PasteLoop(current: seq<string>, pastedData: string) returns (r: seq<string>)
    requires |current| == Slots && |pastedData| <= Slots
    ensures r == Paste(current, pastedData)
  {
    var newOtp := new string[Slots](j requires 0 <= j < Slots => current[j]);
    assert newOtp[..] == current;
    for i := 0 to |pastedData|
      invariant newOtp[..] == PasteFirst(current, pastedData, i)
    {
      PasteStep(current, pastedData, i);
      if !IsNaN([pastedData[i]]) {
        newOtp[i] := [pastedData[i]];
      }
    }
    PasteFirstAll(current, pastedData, |pastedData|);
    r := newOtp[..];
  }

  /** The request the submit guard lets through. */
  datatype OtpRequest = OtpRequest(username: string, otpCode: string)

  /** The answer to the verification request: ok with the tokens, not ok
      with the body's `message`, or a request that threw. */
  datatype VerifyReply = Verified(accessToken: string, refreshToken: string) | Refused(message: Option<string>) | Unreachable

  /** What the stored session holds after a successful verification. */
  datatype Session = Session(accessToken: string, refreshToken: string)

  class OtpForm {
    /** `location.state?.username || ''`. */
    const username: string
    var otp: seq<string>
    var timer: int
    var canResend: bool
    var error: string

    /** The countdown and the resend gate move together, and there are
        always six slots. */
    predicate Valid()
      reads this
    {
      |otp| == Slots && 0 <= timer <= CountdownStart && (canResend <==> timer == 0)
    }

    constructor (stateUsername: Option<string>)
      ensures Valid()
      ensures username == stateUsername.GetOr("")
      ensures otp == ["", "", "", "", "", ""] && timer == CountdownStart && !canResend && error == ""
    {
      username := stateUsername.GetOr("");
      otp := ["", "", "", "", "", ""];
      timer := CountdownStart;
      canResend := false;
      error := "";
    }

    /** One second of the countdown: the interval only runs while the
        timer is positive; reaching 0 opens the resend gate. */
    method Tick()
      requires Valid() && timer > 0
      modifies this`timer, this`canResend
      ensures Valid()
      ensures timer == old(timer) - 1
      ensures canResend <==> timer == 0
    {
      timer := timer - 1;
      if timer == 0 {
        canResend := true;
      }
    }

    /** `handleChange(index, value)`: a value `isNaN` rejects changes
        nothing; any other value replaces slot `index` and only it. */
    method HandleChange(index: nat, value: string)
      requires Valid() && index < Slots
      modifies this`otp
      ensures Valid()
      ensures IsNaN(value) ==> otp == old(otp)
      ensures !IsNaN(value) ==> otp == old(otp)[index := value]
    {
      if IsNaN(value) {
        return;
      }
      otp := otp[index := value];
    }

    /** `handlePaste`: the first six characters of the clipboard text are
        written slot by slot into a copy of the code. */
    method HandlePaste(clipboard: string)
      requires Valid()
      modifies this`otp
      ensures Valid()
      ensures otp == Paste(old(otp), Prefix(clipboard, Slots))
    {
      otp := PasteLoop(otp, Prefix(clipboard, Slots));
    }

    /** `handleSubmit` up to the request: the error is cleared, and the
        request goes out only for a six-character code and a non-empty
        username; otherwise the error asks for the code. */
    method Submit() returns (request: Option<OtpRequest>)
      requires Valid()
      modifies this`error
      ensures Valid()
      ensures |Join(otp)| == Slots && username != "" ==> request == Some(OtpRequest(username, Join(otp))) && error == ""
      ensures !(|Join(otp)| == Slots && username != "") ==> request.None? && error == IncompleteCode
    {
      var otpString := Join(otp);
      error := "";
      if |otpString| == Slots && username != "" {
        return Some(OtpRequest(username, otpString));
      }
      error := IncompleteCode;
      return None;
    }

    /** The verification answer: ok stores the tokens and goes to the chat
        list; not ok shows the server's message or a fixed one; a request
        that threw shows the connection error. */
    method Answer(reply: VerifyReply) returns (session: Option<Session>, navigate: Option<string>)
      modifies this`error
      ensures reply.Verified? ==>
        session == Some(Session(reply.accessToken, reply.refreshToken)) && navigate == Some(ChatsRoute) && error == old(error)
      ensures reply.Refused? ==>
        session.None? && navigate.None? && error == (if Filled(reply.message) then reply.message.value else VerificationFailed)
      ensures reply.Unreachable? ==> session.None? && navigate.None? && error == ServerUnreachable
    {
      match reply {
        case Verified(access, refresh) =>
          return Some(Session(access, refresh)), Some(ChatsRoute);
        case Refused(message) =>
          error := if Filled(message) then message.value else VerificationFailed;
          return None, None;
        case Unreachable =>
          error := ServerUnreachable;
          return None, None;
      }
    }

    /** `handleResend`: only when the gate is open, the countdown restarts,
        the gate closes and every slot is cleared. */
    method HandleResend()
      requires Valid()
      modifies this`timer, this`canResend, this`otp
      ensures Valid()
      ensures !old(canResend) ==> timer == old(timer) && !canResend && otp == old(otp)
      ensures old(canResend) ==> timer == CountdownStart && !canResend && otp == ["", "", "", "", "", ""]
    {
      if canResend {
        timer := CountdownStart;
        canResend := false;
        otp := ["", "", "", "", "", ""];
      }
    }
  }
}
