/**
 * The passcode gate in front of the whole client: six one-digit boxes, filled by typing or
 * by pasting, submitted once all six hold a digit; the gate opens when the server accepts
 * the code.
 */
module Passcode {
  import opened Wrappers
  import opened Text
  import opened Seqs

  /** The number of boxes, and of digits in a passcode. */
  const DigitCount := 6
  const WrongCode := "口令错误"
  const NetworkRetry := "网络错误，请重试"

  datatype Status = Loading | Locked | Unlocked

  /** `s.replace(/\D/g, '')`: the decimal digits of `s`, every one of them, in order. */
  function DigitsOf(s: string): (r: string)
    ensures AllDigits(r) && |r| <= |s|
    ensures AllDigits(s) ==> r == s
    ensures Subsequence(r, s)
    ensures forall c :: multiset(r)[c] == if IsDigit(c) then multiset(s)[c] else 0
  {
    if s == [] then []
    else
      var tail := DigitsOf(s[1..]);
      assert s == [s[0]] + s[1..];
      if IsDigit(s[0]) then
        var r := [s[0]] + tail;
        assert r[0] == s[0] && r[1..] == tail;
        r
      else tail
  }

  /** Keeping the digits of a concatenation keeps the digits of each part. */
  lemma {:induction false} DigitsOfAppend(a: string, b: string)
    ensures DigitsOf(a + b) == DigitsOf(a) + DigitsOf(b)
  {
    if a == [] {
      assert a + b == b;
    } else {
      assert (a + b)[1..] == a[1..] + b;
      DigitsOfAppend(a[1..], b);
    }
  }

  /** What one box keeps of a typed value: its last digit, or "" when it has none. */
  function LastDigit(value: string): (d: string)
    ensures |d| <= 1 && AllDigits(d)
    ensures d == "" <==> DigitsOf(value) == ""
    ensures d != "" ==> d[0] == DigitsOf(value)[|DigitsOf(value)| - 1]
  {
    var ds := DigitsOf(value);
    if ds == "" then "" else [ds[|ds| - 1]]
  }

  /** The digits a paste keeps: the first six digits of the pasted text. */
  function PastedDigits(text: string): (p: string)
    ensures AllDigits(p) && |p| <= DigitCount
    ensures p <= DigitsOf(text)
    ensures |p| == if |DigitsOf(text)| < DigitCount then |DigitsOf(text)| else DigitCount
  {
    var ds := DigitsOf(text);
    if |ds| <= DigitCount then ds else ds[..DigitCount]
  }

  /** A box holds nothing or one digit. */
  predicate IsSlot(d: string) {
    d == "" || (|d| == 1 && IsDigit(d[0]))
  }

  /** The boxes after a paste: one digit each for the pasted digits, the rest empty. */
  function PasteSlots(p: string): (slots: seq<string>)
    requires |p| <= DigitCount
    ensures |slots| == DigitCount
    ensures forall i :: 0 <= i < DigitCount ==> slots[i] == if i < |p| then [p[i]] else ""
  {
    seq(DigitCount, i requires 0 <= i < DigitCount => if i < |p| then [p[i]] else "")
  }

  /** `digits.join('')` */
  function Join(slots: seq<string>): (code: string)
    ensures (forall i :: 0 <= i < |slots| ==> IsSlot(slots[i])) ==> |code| <= |slots| && AllDigits(code)
  {
    if slots == [] then ""
    else
      assert forall i :: 0 <= i < |slots[1..]| ==> slots[1..][i] == slots[i + 1];
      slots[0] + Join(slots[1..])
  }

  /** Six filled boxes join into a six-digit code, box i giving digit i. */
  lemma {:induction false} JoinFilled(slots: seq<string>)
    requires forall i :: 0 <= i < |slots| ==> IsSlot(slots[i]) && slots[i] != ""
    ensures |Join(slots)| == |slots| && AllDigits(Join(slots))
    ensures forall i :: 0 <= i < |slots| ==> Join(slots)[i] == slots[i][0]
  {
    if slots != [] {
      JoinFilled(slots[1..]);
      var rest := Join(slots[1..]);
      assert Join(slots) == [slots[0][0]] + rest;
      forall i | 1 <= i < |slots| ensures Join(slots)[i] == slots[i][0] {
        assert slots[1..][i - 1] == slots[i];
      }
    }
  }

  /** Joining the boxes after a paste gives back the pasted digits. */
  lemma {:induction false} PasteThenJoin(p: string)
    requires |p| <= DigitCount
    ensures Join(PasteSlots(p)) == p
  {
    JoinSlotsFrom(p, 0);
  }

  lemma {:induction false} JoinSlotsFrom(p: string, k: nat)
    requires |p| <= DigitCount && k <= DigitCount
    ensures Join(PasteSlots(p)[k..]) == if k < |p| then p[k..] else ""
    decreases DigitCount - k
  {
    var slots := PasteSlots(p);
    if k < DigitCount {
      JoinSlotsFrom(p, k + 1);
      var rest := slots[k..];
      assert rest[0] == slots[k] && rest[1..] == slots[k + 1..];
      assert Join(rest) == slots[k] + Join(slots[k + 1..]);
      if k < |p| {
        assert slots[k] == [p[k]];
        assert p[k..] == [p[k]] + p[k + 1..];
      } else {
        assert slots[k] == "";
      }
    }
  }

  /** The timer a refused or failed submission starts. */
  datatype Timer = ClearDigits | StopShaking

  class Gate {
    var status: Status
    /** One string per box. */
    var digits: seq<string>
    /** "" when there is none. */
    var error: string
    var shaking: bool

    ghost predicate Valid()
      reads this
    {
      |digits| == DigitCount && forall i :: 0 <= i < |digits| ==> IsSlot(digits[i])
    }

    ghost predicate Filled()
      reads this
    {
      forall i :: 0 <= i < |digits| ==> digits[i] != ""
    }

    /** The gate while the passcode status is being asked for: six empty boxes. */
    constructor ()
      ensures Valid() && status == Loading && error == "" && !shaking
      ensures digits == PasteSlots("")
    {
      status := Loading;
      digits := PasteSlots("");
      error := "";
      shaking := false;
    }

    /** The status answered (`None` when the request failed, which locks the gate): open
        exactly when the server says the passcode was verified. */
    method StatusResolved(verified: Option<bool>)
      modifies this
      ensures status == (if verified == Some(true) then Unlocked else Locked)
      ensures digits == old(digits) && error == old(error) && shaking == old(shaking)
    {
      status := if verified == Some(true) then Unlocked else Locked;
    }

    /** `handleChange`: box `index` keeps the last digit typed into it and the error is
        cleared; when that leaves every box with a digit, the joined code is submitted. */
    method Change(index: nat, value: string) returns (submit: Option<string>)
      requires Valid() && index < DigitCount
      modifies this
      ensures Valid()
      ensures digits == old(digits)[index := LastDigit(value)]
      ensures error == ""
      ensures submit.Some? <==> LastDigit(value) != "" && Filled()
      ensures submit.Some? ==>
        submit.value == Join(digits)
        && |submit.value| == DigitCount && AllDigits(submit.value)
      ensures status == old(status) && shaking == old(shaking)
    {
      var digit := LastDigit(value);
      error := "";
      digits := digits[index := digit];
      submit := None;
      if digit != "" && forall i :: 0 <= i < |digits| ==> digits[i] != "" {
        JoinFilled(digits);
        submit := Some(Join(digits));
      }
    }

    /** `handlePaste`: a paste without digits does nothing; otherwise the boxes are
        refilled from the first six digits, the error is cleared, and six digits are
        submitted at once. */
    method Paste(text: string) returns (submit: Option<string>)
      requires Valid()
      modifies this
      ensures Valid()
      ensures PastedDigits(text) == "" ==> submit.None? && unchanged(this)
      ensures PastedDigits(text) != "" ==>
        digits == PasteSlots(PastedDigits(text)) && error == ""
        && status == old(status) && shaking == old(shaking)
      ensures submit.Some? <==> |PastedDigits(text)| == DigitCount
      ensures submit.Some? ==> submit.value == PastedDigits(text) == Join(digits)
    {
      var pasted := PastedDigits(text);
      if pasted == "" {
        return None;
      }
      digits := FillSlots(pasted);
      error := "";
      PasteThenJoin(pasted);
      submit := if |pasted| == DigitCount then Some(pasted) else None;
    }

    /** The boxes a paste writes: a fresh array of six empty boxes, the leading ones set
        to the pasted digits one by one. */
    static method FillSlots(pasted: string) returns (slots: seq<string>)
      requires |pasted| <= DigitCount
      ensures slots == PasteSlots(pasted)
    {
      var next := new string[DigitCount](_ => "");
      for i := 0 to |pasted|
        invariant forall k :: 0 <= k < DigitCount ==> next[k] == if k < i then [pasted[k]] else ""
      {
        next[i] := [pasted[i]];
      }
      slots := next[..];
    }

    /** The submitted code answered: `Some(true)` accepted, `Some(false)` refused,
        `None` the request threw. Acceptance opens the gate; a refusal or a failure shows
        its error and starts the shake, and says which timer ends it. */
    method Submitted(accepted: Option<bool>) returns (timer: Option<Timer>)
      modifies this
      ensures accepted == Some(true) ==>
        status == Unlocked && timer.None?
        && error == old(error) && shaking == old(shaking)
      ensures accepted == Some(false) ==>
        status == old(status) && error == WrongCode
        && shaking && timer == Some(ClearDigits)
      ensures accepted.None? ==>
        status == old(status) && error == NetworkRetry
        && shaking && timer == Some(StopShaking)
      ensures digits == old(digits)
    {
      timer := None;
      match accepted {
        case Some(true) =>
          status := Unlocked;
        case Some(false) =>
          error := WrongCode;
          shaking := true;
          timer := Some(ClearDigits);
        case None =>
          error := NetworkRetry;
          shaking := true;
          timer := Some(StopShaking);
      }
    }

    /** The 400 ms timer after a refusal or a failure: the shake stops, and after a
        refusal every box is emptied; the error stays shown. */
    method TimerFired(timer: Timer)
      modifies this
      ensures !shaking
      ensures digits == if timer == ClearDigits then PasteSlots("") else old(digits)
      ensures status == old(status) && error == old(error)
      ensures timer == ClearDigits ==> Valid()
      ensures old(Valid()) ==> Valid()
    {
      shaking := false;
      if timer == ClearDigits {
        digits := PasteSlots("");
      }
    }
  }
}
