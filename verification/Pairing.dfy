/** The three-digit manual pairing of a remote: pairingHandler of ControlService and its class threeDigits. */
module Pairing {
  type Numeral = d: int | 0 <= d <= 9

  datatype Key = DigitKey(d: Numeral) | OtherKey

  datatype Outcome = Success | Pending | Timeout | Collision | Failure | Abort | FullAbort | Failed | BindTableFull
                   | InProgress | CtrlmRestart | Unknown

  datatype Event =
    | NoData
    | Begin(revisionOk: bool, interactive: bool, k1: Key, k2: Key, k3: Key)
    | Press(revisionOk: bool, down: bool, key: Key)
    | End(revisionOk: bool, outcome: Outcome)
    | Other

  /** What is sent to the clients: the code, the digits entered so far that are set, or a validation status. */
  datatype Notice = Started(code: seq<int>) | Update(entered: seq<int>) | Complete(status: int)

  const VALIDATION_SUCCESS := 0
  const VALIDATION_TIMEOUT := 1
  const VALIDATION_FAILURE := 2
  const VALIDATION_ABORT := 3
  const VALIDATION_WRONG_CODE := 4

  /** Every key that is not a digit counts as 0. */
  function NumericCtrlm2Int(k: Key): Numeral {
    if k.DigitKey? then k.d else 0
  }

  /** Success, timeout, the two aborts and the wrong code have a status of their own; everything else is a failure. */
  function EndStatus(o: Outcome): (status: int)
    ensures status == VALIDATION_SUCCESS <==> o.Success?
    ensures status == VALIDATION_TIMEOUT <==> o.Timeout?
    ensures status == VALIDATION_ABORT <==> o.Abort? || o.FullAbort?
    ensures status == VALIDATION_WRONG_CODE <==> o.Failed?
  {
    match o
    case Success => VALIDATION_SUCCESS
    case Timeout => VALIDATION_TIMEOUT
    case Abort | FullAbort => VALIDATION_ABORT
    case Failed => VALIDATION_WRONG_CODE
    case Pending | Collision | Failure | BindTableFull | InProgress | CtrlmRestart | Unknown => VALIDATION_FAILURE
  }

  // ------------------------------------------------------- the counting automaton

  /** code: the three digits to enter; matched: how many have been. */
  datatype Counter = Counter(code: seq<int>, matched: nat)

  const UNSET := Counter([-1, -1, -1], 0)

  predicate Sane(c: Counter) {
    && |c.code| == 3 && c.matched <= 3
    && (c == UNSET || (0 <= c.code[0] && 0 <= c.code[1] && 0 <= c.code[2]))
  }

  /** The events that count; the others change nothing and send nothing. */
  predicate Counts(e: Event) {
    match e
    case NoData => false
    case Begin(ok, interactive, _, _, _) => ok && interactive
    case Press(ok, down, _) => ok && down
    case End(ok, _) => ok
    case Other => false
  }

  predicate Right(c: Counter, e: Event) {
    Counts(e) && e.Press? && c.matched < |c.code| && c.code[c.matched] == NumericCtrlm2Int(e.key)
  }

  function Next(c: Counter, e: Event): Counter {
    if !Counts(e) then c
    else if e.Begin? then Counter([NumericCtrlm2Int(e.k1), NumericCtrlm2Int(e.k2), NumericCtrlm2Int(e.k3)], 0)
    else if Right(c, e) then c.(matched := c.matched + 1)
    else c.(matched := 0)
  }

  function Sent(c: Counter, e: Event): seq<Notice>
    requires Sane(c)
  {
    if !Counts(e) then []
    else if e.Begin? then [Started(Next(c, e).code)]
    else if e.End? then [Complete(EndStatus(e.outcome))]
    else if Right(c, e) then [Update(c.code[..c.matched + 1])]
    else [Complete(VALIDATION_WRONG_CODE)]
  }

  // ------------------------------------------------------- the code, in place

  class ThreeDigits {
    var digit1: int
    var digit2: int
    var digit3: int

    constructor ()
      ensures Unset()
    {
      digit1, digit2, digit3 := -1, -1, -1;
    }

    predicate Unset()
      reads this
    {
      digit1 == -1 && digit2 == -1 && digit3 == -1
    }

    /** The digits that are set, in order: what an update shows. */
    function Shown(): seq<int>
      reads this
    {
      (if digit1 > -1 then [digit1] else []) + (if digit2 > -1 then [digit2] else []) +
      (if digit3 > -1 then [digit3] else [])
    }

    /** A gap-free prefix of a code shows as that prefix, and its size is its length. */
    lemma PrefixShown(code: seq<int>, n: nat)
      requires |code| == 3 && n <= 3 && IsPrefix(code, n)
      requires forall i :: 0 <= i < n ==> 0 <= code[i]
      ensures Shown() == code[..n]
    {
    }

    /** The digits are the first n of code, without a gap, and nothing after them. */
    ghost predicate IsPrefix(code: seq<int>, n: nat)
      reads this
      requires |code| == 3
    {
      && digit1 == (if n > 0 then code[0] else -1)
      && digit2 == (if n > 1 then code[1] else -1)
      && digit3 == (if n > 2 then code[2] else -1)
    }

    method Clear()
      modifies this
      ensures Unset()
    {
      digit1, digit2, digit3 := -1, -1, -1;
    }

    method Size() returns (size: nat)
      ensures size == |Shown()|
    {
      size := 0;
      if digit1 > -1 { size := size + 1; }
      if digit2 > -1 { size := size + 1; }
      if digit3 > -1 { size := size + 1; }
    }
  }

  class Handler {
    const golden: ThreeDigits
    const entered: ThreeDigits
    ghost var matched: nat

    constructor ()
      ensures Valid() && View() == UNSET
      ensures fresh(golden) && fresh(entered)
    {
      golden := new ThreeDigits();
      entered := new ThreeDigits();
      matched := 0;
    }

    ghost function View(): Counter
      reads this, golden
    {
      Counter([golden.digit1, golden.digit2, golden.digit3], matched)
    }

    /** The digits entered are a gap-free prefix of the code. */
    ghost predicate Valid()
      reads this, golden, entered
    {
      golden != entered && Sane(View()) && entered.IsPrefix(View().code, matched)
    }

    method Handle(e: Event) returns (sent: seq<Notice>)
      requires Valid()
      modifies this, golden, entered
      ensures Valid()
      ensures View() == Next(old(View()), e)
      ensures sent == Sent(old(View()), e)
    {
      sent := [];
      match e {
        case Begin(revisionOk, interactive, k1, k2, k3) =>
          if revisionOk {
            if interactive {
              entered.Clear();
              golden.digit1 := NumericCtrlm2Int(k1);
              golden.digit2 := NumericCtrlm2Int(k2);
              golden.digit3 := NumericCtrlm2Int(k3);
              matched := 0;
              golden.PrefixShown(View().code, 3);
              assert View().code[..3] == View().code;
              sent := [Started(golden.Shown())];
            }
          }
        case Press(revisionOk, down, key) =>
          if revisionOk {
            if down {
              sent := KeyDown(key);
            }
          }
        case End(revisionOk, outcome) =>
          if revisionOk {
            entered.Clear();
            matched := 0;
            sent := [Complete(EndStatus(outcome))];
          }
        case NoData =>
        case Other =>
      }
    }

    /** A key press that counts. */
    method KeyDown(key: Key) returns (sent: seq<Notice>)
      requires Valid()
      modifies this`matched, entered
      ensures Valid()
      ensures View() == Next(old(View()), Press(true, true, key))
      ensures sent == Sent(old(View()), Press(true, true, key))
    {
      entered.PrefixShown(View().code, matched);
      var correct := false;
      var digit := NumericCtrlm2Int(key);
      var size := entered.Size();
      if size == 0 {
        entered.digit1 := digit;
        correct := golden.digit1 == entered.digit1;
      } else if size == 1 {
        entered.digit2 := digit;
        correct := golden.digit2 == entered.digit2;
      } else if size == 2 {
        entered.digit3 := digit;
        correct := golden.digit3 == entered.digit3;
      }
      size := entered.Size();
      if !correct {
        entered.Clear();
        matched := 0;
        sent := [Complete(VALIDATION_WRONG_CODE)];
      } else if size <= 3 {
        matched := matched + 1;
        entered.PrefixShown(View().code, matched);
        sent := [Update(entered.Shown())];
      } else {
        // the handler logs that more than three presses arrived
        assert false;
      }
    }
  }

  // ------------------------------------------------------- every run

  /** The automaton after the events, and everything sent on the way. */
  function After(events: seq<Event>): (c: Counter)
    ensures Sane(c)
  {
    if events == [] then UNSET else Next(After(events[..|events| - 1]), events[|events| - 1])
  }

  function Notices(events: seq<Event>): seq<Notice> {
    if events == [] then []
    else var before := events[..|events| - 1]; Notices(before) + Sent(After(before), events[|events| - 1])
  }

  function Effective(events: seq<Event>): seq<Event> {
    if events == [] then []
    else
      var last := events[|events| - 1];
      Effective(events[..|events| - 1]) + if Counts(last) then [last] else []
  }

  predicate Entered(e: Event, digit: int) {
    e.Press? && NumericCtrlm2Int(e.key) == digit
  }

  /** The n last events that counted are presses of the first n digits of the code, in order. */
  ghost predicate LastPresses(effective: seq<Event>, code: seq<int>, n: nat) {
    && n <= |effective| && n <= |code|
    && forall i :: |effective| - n <= i < |effective| ==> Entered(effective[i], code[i - (|effective| - n)])
  }

  lemma PressesStep(effective: seq<Event>, c: Counter, e: Event)
    requires Sane(c) && LastPresses(effective, c.code, c.matched)
    ensures LastPresses(effective + if Counts(e) then [e] else [], Next(c, e).code, Next(c, e).matched)
  {
  }

  /** Whatever arrives, the digits counted as matched are exactly the last events that counted, with nothing between
      them, so a full match is the code typed without a mistake. */
  lemma {:induction false} MatchedWereTyped(events: seq<Event>)
    ensures LastPresses(Effective(events), After(events).code, After(events).matched)
  {
    if events != [] {
      var before, e := events[..|events| - 1], events[|events| - 1];
      MatchedWereTyped(before);
      PressesStep(Effective(before), After(before), e);
      hide LastPresses, Next, Sane;
    }
  }

  /** What the last notice says about the digits entered so far. */
  function ShownLast(notices: seq<Notice>): seq<int> {
    if notices != [] && notices[|notices| - 1].Update? then notices[|notices| - 1].entered else []
  }

  lemma {:induction false} LastNoticeShowsPrefix(events: seq<Event>)
    ensures ShownLast(Notices(events)) == After(events).code[..After(events).matched]
  {
    if events != [] {
      LastNoticeShowsPrefix(events[..|events| - 1]);
    }
  }

  /** Every update shows one digit more than the notice before it showed, and keeps those. */
  lemma {:induction false} UpdatesGrowByOne(events: seq<Event>, k: nat)
    requires k < |Notices(events)| && Notices(events)[k].Update?
    ensures var shown := Notices(events)[k].entered;
      1 <= |shown| <= 3 && shown[..|shown| - 1] == ShownLast(Notices(events)[..k])
  {
    var before := events[..|events| - 1];
    var earlier := Notices(before);
    if k < |earlier| {
      UpdatesGrowByOne(before, k);
      assert Notices(events)[..k] == earlier[..k];
    } else {
      LastNoticeShowsPrefix(before);
      assert Notices(events)[..k] == earlier;
    }
  }

  lemma ThenPress(events: seq<Event>, key: Key)
    ensures After(events + [Press(true, true, key)]) == Next(After(events), Press(true, true, key))
  {
  }

  /** Typing the whole code from any point at which no digit is matched matches it, whatever came before; the next
      press, of any key, reports the wrong code. */
  lemma TypedCodeMatches(events: seq<Event>, a: Key, b: Key, c: Key, more: Key)
    requires After(events).matched == 0
    requires After(events).code == [NumericCtrlm2Int(a), NumericCtrlm2Int(b), NumericCtrlm2Int(c)]
    ensures var typed := events + [Press(true, true, a), Press(true, true, b), Press(true, true, c)];
      After(typed) == Counter(After(events).code, 3) &&
      Sent(After(typed), Press(true, true, more)) == [Complete(VALIDATION_WRONG_CODE)] &&
      After(typed + [Press(true, true, more)]) == After(events)
  {
    ThenPress(events, a);
    ThenPress(events + [Press(true, true, a)], b);
    ThenPress(events + [Press(true, true, a)] + [Press(true, true, b)], c);
    hide After, Sane;
    var typed := events + [Press(true, true, a), Press(true, true, b), Press(true, true, c)];
    assert typed == events + [Press(true, true, a)] + [Press(true, true, b)] + [Press(true, true, c)];
    ThenPress(typed, more);
  }

  // ------------------------------------------------------- in digits

  /** What is sent to the clients by one more event. */
  function SentAfter(events: seq<Event>, e: Event): seq<Notice> {
    Sent(After(events), e)
  }

  /** An event is ignored exactly when it has no data, is of another kind or revision, begins another kind of pairing,
      or is a key that is not going down; it then sends nothing and leaves everything as it is. */
  lemma IgnoredExactly(events: seq<Event>, e: Event)
    ensures SentAfter(events, e) == [] <==>
      match e
      case NoData | Other => true
      case Begin(revisionOk, interactive, _, _, _) => !revisionOk || !interactive
      case Press(revisionOk, down, _) => !revisionOk || !down
      case End(revisionOk, _) => !revisionOk
    ensures SentAfter(events, e) == [] ==> After(events + [e]) == After(events)
  {
    var longer := events + [e];
    assert longer[..|longer| - 1] == events;
  }

  /** A pairing code of digit keys is shown as it is, in order. */
  lemma CodeShown(events: seq<Event>, a: Numeral, b: Numeral, c: Numeral)
    ensures SentAfter(events, Begin(true, true, DigitKey(a), DigitKey(b), DigitKey(c))) == [Started([a, b, c])]
    ensures After(events + [Begin(true, true, DigitKey(a), DigitKey(b), DigitKey(c))]) == Counter([a, b, c], 0)
  {
    var e := Begin(true, true, DigitKey(a), DigitKey(b), DigitKey(c));
    var longer := events + [e];
    assert longer[..|longer| - 1] == events;
  }

  /** The code the clients were shown last, unset digits before any. */
  function ShownCode(notices: seq<Notice>): seq<int> {
    if notices == [] then [-1, -1, -1]
    else if notices[|notices| - 1].Started? then notices[|notices| - 1].code
    else ShownCode(notices[..|notices| - 1])
  }

  lemma ShownCodeSnoc(notices: seq<Notice>, n: Notice)
    ensures ShownCode(notices + [n]) == if n.Started? then n.code else ShownCode(notices)
    ensures ShownCode(notices + []) == ShownCode(notices)
  {
    assert notices + [] == notices && (notices + [n])[..|notices|] == notices;
  }

  lemma CodeStep(notices: seq<Notice>, c: Counter, e: Event)
    requires Sane(c) && ShownCode(notices) == c.code
    ensures ShownCode(notices + Sent(c, e)) == Next(c, e).code
  {
    var sent := Sent(c, e);
    assert sent == [] || sent == [sent[0]];
    ShownCodeSnoc(notices, if sent == [] then Started([]) else sent[0]);
    hide ShownCode;
  }

  lemma OneMoreEvent(events: seq<Event>)
    requires events != []
    ensures var before, e := events[..|events| - 1], events[|events| - 1];
      Notices(events) == Notices(before) + Sent(After(before), e) && After(events) == Next(After(before), e)
  {
    hide Sent, Next;
  }

  lemma {:induction false} CodeIsShown(events: seq<Event>)
    ensures ShownCode(Notices(events)) == After(events).code
  {
    if events != [] {
      var before, e := events[..|events| - 1], events[|events| - 1];
      CodeIsShown(before);
      OneMoreEvent(events);
      CodeStep(Notices(before), After(before), e);
    } else {
      assert Notices([]) == [] && After([]) == UNSET;
    }
    hide Notices, After, Sent, Next, ShownCode;
  }

  function Down(d: Numeral): Event {
    Press(true, true, DigitKey(d))
  }

  /** Pressing a digit, after any events: it is right exactly when fewer than three digits are matched and the code
      that was shown has that digit in the next place. Then all digits matched so far are shown with it; otherwise the
      code is reported wrong. */
  lemma DigitPressed(events: seq<Event>, d: Numeral)
    ensures var n, code := |ShownLast(Notices(events))|, ShownCode(Notices(events));
      |code| == 3 && n <= 3 &&
      SentAfter(events, Down(d)) ==
        if n < 3 && code[n] == d then [Update(code[..n + 1])] else [Complete(VALIDATION_WRONG_CODE)]
  {
    LastNoticeShowsPrefix(events);
    CodeIsShown(events);
  }

  lemma CountsAsZero(c: Counter)
    requires Sane(c)
    ensures Sent(c, Press(true, true, OtherKey)) == Sent(c, Down(0))
    ensures Next(c, Press(true, true, OtherKey)) == Next(c, Down(0))
  {
  }

  /** A key that is not a digit is right exactly where the code has 0. */
  lemma OtherKeyPressed(events: seq<Event>)
    ensures SentAfter(events, Press(true, true, OtherKey)) == SentAfter(events, Down(0))
    ensures After(events + [Press(true, true, OtherKey)]) == After(events + [Down(0)])
  {
    ThenPress(events, OtherKey);
    ThenPress(events, DigitKey(0));
    CountsAsZero(After(events));
    hide After, Next, Sent;
  }

  /** A code of keys that are not digits is a code of zeros. */
  lemma OtherKeysShown(events: seq<Event>)
    ensures SentAfter(events, Begin(true, true, OtherKey, OtherKey, OtherKey)) == [Started([0, 0, 0])]
  {
  }

  /** Typing the code that is shown, from no match: each press shows the digits so far. */
  lemma ShownCodeTyped(events: seq<Event>, x: Numeral, y: Numeral, z: Numeral)
    requires ShownCode(Notices(events)) == [x, y, z] && ShownLast(Notices(events)) == []
    ensures SentAfter(events, Down(x)) == [Update([x])]
    ensures SentAfter(events + [Down(x)], Down(y)) == [Update([x, y])]
    ensures SentAfter(events + [Down(x)] + [Down(y)], Down(z)) == [Update([x, y, z])]
  {
    LastNoticeShowsPrefix(events);
    CodeIsShown(events);
    ThenPress(events, DigitKey(x));
    ThenPress(events + [Down(x)], DigitKey(y));
    var code := After(events).code;
    assert code[..1] == [x] && code[..2] == [x, y] && code[..3] == [x, y, z];
  }
}
