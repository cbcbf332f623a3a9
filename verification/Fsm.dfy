/** The table-driven engine of FSMImplementation/fsm.c. */
module Fsm {
  import opened Common

  const MAX_INPUT := 128      // MAX_INP_BUFFER_LEN
  const MAX_CALLBACKS := 5    // MAX_TT_ENTRY_CALLBACKS

  // The matching functions of FSMImplementation/std_fsm.c; each reads one character.
  datatype Matcher = Digit | Upto(limit: char) | AnyChar

  predicate Matches(m: Matcher, c: char) {
    match m
    case Digit => '0' <= c <= '9'
    case Upto(limit) => '0' <= c <= limit
    case AnyChar => true
  }

  datatype Output = Silent | Echo | Hex

  datatype Entry = Entry(key: string, callbacks: seq<Matcher>, output: Output, next: nat)

  datatype Node = Node(entries: seq<Entry>, final: bool)

  datatype Machine = Machine(states: seq<Node>, initial: nat)

  predicate Sound(m: Machine) {
    m.initial < |m.states| &&
    forall i, j | 0 <= i < |m.states| && 0 <= j < |m.states[i].entries| ::
      m.states[i].entries[j].next < |m.states| && |m.states[i].entries[j].callbacks| <= MAX_CALLBACKS
  }

  predicate AnyMatches(ms: seq<Matcher>, c: char) {
    exists i | 0 <= i < |ms| :: Matches(ms[i], c)
  }

  // How many characters the entry reads off the input, if it applies.
  function Reads(e: Entry, rest: string): (n: Option<nat>)
    requires rest != []
    ensures n.Some? ==> n.value <= |rest| && if e.callbacks != [] then n.value == 1 else rest[..n.value] == e.key
  {
    if |e.key| > |rest| then None
    else if e.callbacks != [] then (if AnyMatches(e.callbacks, rest[0]) then Some(1) else None)
    else if e.key <= rest then Some(|e.key|) else None
  }

  // The first entry that applies.
  function First(es: seq<Entry>, rest: string): Option<Entry>
    requires rest != []
  {
    if es == [] then None else if Reads(es[0], rest).Some? then Some(es[0]) else First(es[1..], rest)
  }

  lemma {:induction false} FirstIn(es: seq<Entry>, rest: string)
    requires rest != [] && First(es, rest).Some?
    ensures First(es, rest).value in es && Reads(First(es, rest).value, rest).Some?
  {
    if Reads(es[0], rest).None? {
      FirstIn(es[1..], rest);
    }
  }

  predicate IsBit(c: char) {
    c == '0' || c == '1'
  }

  function BitValue(c: char): nat {
    if c == '1' then 1 else 0
  }

  // The value of binary digits, the most significant first.
  function Binary(s: string): nat {
    if s == [] then 0 else 2 * Binary(s[..|s| - 1]) + BitValue(s[|s| - 1])
  }

  const HEX_DIGITS := "0123456789ABCDEF"

  // convert_binary_to_hex: the branch whose four bits agree.
  function HexDigit(b: string): char
    requires |b| == 4
  {
    HEX_DIGITS[8 * BitValue(b[0]) + 4 * BitValue(b[1]) + 2 * BitValue(b[2]) + BitValue(b[3])]
  }

  // What a transition appends to the output; none for a failed assertion.
  function Produced(o: Output, input: string, cursor: nat, keyLen: nat): Option<string>
    requires cursor < |input| && cursor + keyLen <= |input|
  {
    match o
    case Silent => Some("")
    case Echo => Some(input[cursor..cursor + keyLen])
    case Hex =>
      if cursor >= 3 && forall i | cursor - 3 <= i <= cursor ::
        IsBit(input[i]) then Some([HexDigit(input[cursor - 3..cursor + 1])])
      else None
  }

  datatype Outcome = Abort | NoTransition(out: string) | Done(final: bool, out: string)

  /** The run of the table, by recursion over the input. */
  function Run(m: Machine, state: nat, input: string, cursor: nat, out: string): Outcome
    requires Sound(m) && state < |m.states| && cursor < |input|
    decreases |input| - cursor
  {
    if cursor >= MAX_INPUT then Done(m.states[state].final, out) else
      var hit := First(m.states[state].entries, input[cursor..]);
      if hit.None? then NoTransition(out) else
        FirstIn(m.states[state].entries, input[cursor..]);
        var e, n := hit.value, Reads(hit.value, input[cursor..]).value;
        var o := Produced(e.output, input, cursor, |e.key|);
        if o.None? then Abort
        else if n == 0 then Done(m.states[state].final, out + o.value)
        else if cursor + n == |input| then Done(m.states[e.next].final, out + o.value)
        else Run(m, e.next, input, cursor + n, out + o.value)
  }

  // One step of the run.
  lemma RunStep(m: Machine, state: nat, input: string, cursor: nat, out: string, e: Entry, o: string)
    requires Sound(m) && state < |m.states| && cursor < |input| && cursor < MAX_INPUT
    requires First(m.states[state].entries, input[cursor..]) == Some(e) && Reads(e, input[cursor..]) == Some(1) &&
      |e.key| <= |input| - cursor
    requires Produced(e.output, input, cursor, |e.key|) == Some(o)
    ensures e.next < |m.states|
    ensures Run(m, state, input, cursor, out) ==
      if cursor + 1 == |input| then Done(m.states[e.next].final, out + o)
        else Run(m, e.next, input, cursor + 1, out + o)
  {
    FirstIn(m.states[state].entries, input[cursor..]);
  }

  // Every entry of the machine reads a key and echoes it.
  predicate Echoes(m: Machine) {
    forall i, j | 0 <= i < |m.states| && 0 <= j < |m.states[i].entries| ::
      m.states[i].entries[j].key != [] && m.states[i].entries[j].callbacks == [] &&
        m.states[i].entries[j].output == Echo
  }

  // One key of a machine that echoes.
  lemma EchoStep(m: Machine, state: nat, input: string, cursor: nat, out: string)
    requires Sound(m) && Echoes(m) && state < |m.states| && cursor < |input| && cursor < MAX_INPUT
    ensures var hit := First(m.states[state].entries, input[cursor..]);
      if hit.None? then Run(m, state, input, cursor, out) == NoTransition(out) else
        var key, next := hit.value.key, hit.value.next;
        && 0 < |key| <= |input| - cursor && input[cursor..cursor + |key|] == key && next < |m.states|
        && Run(m, state, input, cursor, out) ==
          if cursor + |key| == |input| then Done(m.states[next].final, out + key)
          else Run(m, next, input, cursor + |key|, out + key)
  {
    hide Echoes, First;
    var hit := First(m.states[state].entries, input[cursor..]);
    if hit.Some? {
      FirstIn(m.states[state].entries, input[cursor..]);
      EchoesKey(m, state, hit.value);
      assert input[cursor..][..|hit.value.key|] == input[cursor..cursor + |hit.value.key|];
    }
  }

  lemma Glued(out: string, input: string, a: nat, b: nat, c: nat)
    requires a <= b <= c <= |input|
    ensures out + input[a..b] + input[b..c] == out + input[a..c]
  {
  }

  // What has been written is a copy of what lies between two places of the input.
  predicate Copied(r: Outcome, out: string, input: string, from: nat)
    requires from <= |input|
  {
    && !r.Abort? && (r.Done? && |input| <= MAX_INPUT ==> r.out == out + input[from..|input|])
    && exists end | from <= end <= |input| :: r.out == out + input[from..end]
  }

  /** A machine of keys that are echoed writes what it reads: a copy of the input up to
      where it stops, and of all of it if it is through with an input that fits. */
  lemma {:induction false} Copies(m: Machine, state: nat, input: string, cursor: nat, out: string)
    requires Sound(m) && Echoes(m) && state < |m.states| && cursor < |input|
    ensures Copied(Run(m, state, input, cursor, out), out, input, cursor)
    decreases |input| - cursor
  {
    assert out + input[cursor..cursor] == out;
    if cursor < MAX_INPUT {
      EchoStep(m, state, input, cursor, out);
      var hit := First(m.states[state].entries, input[cursor..]);
      hide Run, Echoes, First, Sound;
      if hit.Some? {
        var next := cursor + |hit.value.key|;
        if next < |input| {
          var r := Run(m, hit.value.next, input, next, out + hit.value.key);
          Copies(m, hit.value.next, input, next, out + hit.value.key);
          var end :| next <= end <= |input| && r.out == out + hit.value.key + input[next..end];
          Glued(out, input, cursor, next, end);
          Glued(out, input, cursor, next, |input|);
        }
      }
    }
  }

  lemma EchoesKey(m: Machine, state: nat, e: Entry)
    requires Sound(m) && Echoes(m) && state < |m.states| && e in m.states[state].entries
    ensures e.key != [] && e.callbacks == [] && e.output == Echo && e.next < |m.states|
  {
  }

  /** fsm_evaluate_transition_entry_match, with its loop over the callbacks. */
  method Evaluate(e: Entry, rest: string) returns (matched: bool, lengthRead: nat)
    requires rest != [] && |e.key| <= |rest|
    ensures matched == Reads(e, rest).Some? && (matched ==> lengthRead == Reads(e, rest).value)
  {
    lengthRead := 0;
    if e.callbacks != [] {
      var i := 0;
      while i < |e.callbacks|
        invariant i <= |e.callbacks| && forall j | 0 <= j < i :: !Matches(e.callbacks[j], rest[0])
      {
        if Matches(e.callbacks[i], rest[0]) {
          return true, 1;
        }
        i := i + 1;
      }
      return false, 0;
    }
    matched := e.key <= rest;
    if matched {
      lengthRead := |e.key|;
    }
  }

  /** fsm_apply_transition: the loop over the table of a state. */
  method Apply(es: seq<Entry>, rest: string) returns (hit: Option<Entry>, lengthRead: nat)
    requires rest != []
    ensures hit == First(es, rest) && (hit.Some? ==> Reads(hit.value, rest) == Some(lengthRead))
  {
    lengthRead := 0;
    var i := 0;
    while i < |es|
      invariant i <= |es| && First(es, rest) == First(es[i..], rest)
    {
      if |es[i].key| <= |rest| {
        var matched;
        matched, lengthRead := Evaluate(es[i], rest);
        if matched {
          return Some(es[i]), lengthRead;
        }
      }
      i := i + 1;
    }
    hit := None;
  }

  /** execute_fsm computes the run of the table, and stops. */
  method Execute(m: Machine, input: string) returns (r: Outcome)
    requires Sound(m) && input != []
    ensures r == Run(m, m.initial, input, 0, "")
  {
    hide Produced, First;
    var state: nat, cursor: nat, out := m.initial, 0, "";
    while cursor < MAX_INPUT
      invariant state < |m.states| && cursor < |input| &&
        Run(m, m.initial, input, 0, "") == Run(m, state, input, cursor, out)
      decreases |input| - cursor
    {
      var hit, lengthRead := Apply(m.states[state].entries, input[cursor..]);
      if hit.None? {
        return NoTransition(out);
      }
      FirstIn(m.states[state].entries, input[cursor..]);
      var o := Produced(hit.value.output, input, cursor, |hit.value.key|);
      if o.None? {
        return Abort;
      }
      out := out + o.value;
      if lengthRead != 0 {
        cursor := cursor + lengthRead;
        state := hit.value.next;
        if cursor == |input| {
          break;
        }
      } else {
        break;
      }
    }
    r := Done(m.states[state].final, out);
  }
}

/** The converter from binary to hexadecimal digits of FSMImplementation/std_fsm.c. */
module BinaryToHex {
  import opened Common
  import opened Fsm

  function BitNode(output: Output, next: nat, final: bool): Node {
    Node([Entry("0", [], output, next), Entry("1", [], output, next)], final)
  }

  // fsm_binary_to_hex: the states q0 to q4.
  const MACHINE := Machine([BitNode(Silent, 1, false), BitNode(Silent, 2, false), BitNode(Silent, 3, false),
    BitNode(Hex, 4, false), BitNode(Silent, 1, true)], 0)

  predicate AllBits(s: string) {
    forall i | 0 <= i < |s| :: IsBit(s[i])
  }

  // The digits in front of the first character that is none.
  function Leading(s: string): (n: nat)
    ensures n <= |s| && AllBits(s[..n]) && (n < |s| ==> !IsBit(s[n]))
  {
    if s == [] || !IsBit(s[0]) then 0 else
      var n := 1 + Leading(s[1..]);
      assert forall i | 0 <= i < n :: s[..n][i] == if i == 0 then s[0] else s[1..][..n - 1][i - 1];
      n
  }

  // Those that are read: no more than the input buffer holds.
  function Digits(s: string): (n: nat)
    ensures n <= |s| && n <= MAX_INPUT && AllBits(s[..n])
  {
    if Leading(s) <= MAX_INPUT then Leading(s)
    else
      assert s[..MAX_INPUT] == s[..Leading(s)][..MAX_INPUT];
      MAX_INPUT
  }

  // The state after `n` digits.
  function StateAt(n: nat): nat {
    if n == 0 then 0 else (n - 1) % 4 + 1
  }

  // The output after `n` digits.
  function Emitted(s: string, n: nat): string
    requires n <= |s|
  {
    if n == 0 then "" else Emitted(s, n - 1) + if n % 4 == 0 then [HexDigit(s[n - 4..n])] else ""
  }

  function HexValue(c: char): nat {
    if '0' <= c <= '9' then (c - '0') as nat else if 'A' <= c <= 'F' then (c - 'A') as nat + 10 else 0
  }

  // The value of hexadecimal digits, the most significant first.
  function Hexadecimal(s: string): nat {
    if s == [] then 0 else 16 * Hexadecimal(s[..|s| - 1]) + HexValue(s[|s| - 1])
  }

  lemma BitStep(output: Output, next: nat, final: bool, rest: string)
    requires rest != [] && IsBit(rest[0])
    ensures var hit := First(BitNode(output, next, final).entries, rest);
      hit.Some? && hit.value.next == next && hit.value.output == output && |hit.value.key| == 1 &&
        Reads(hit.value, rest) == Some(1)
  {
    var es := BitNode(output, next, final).entries;
    assert rest[..1] == [rest[0]];
    if rest[0] == '0' {
      assert es[0].key <= rest;
    } else {
      assert !(es[0].key <= rest) && es[1].key <= rest;
      assert es[1..][0] == es[1];
      assert First(es, rest) == First(es[1..], rest);
    }
  }

  lemma MachineSound()
    ensures Sound(MACHINE) && |MACHINE.states| == 5
  {
  }

  lemma StateCycle(n: nat)
    ensures StateAt(n) < 5 && (StateAt(n) == 4 <==> n > 0 && n % 4 == 0) && (StateAt(n) == 3 <==> n % 4 == 3)
    ensures StateAt(n + 1) == if StateAt(n) == 4 then 1 else StateAt(n) + 1
  {
  }

  lemma Shape(n: nat)
    ensures Sound(MACHINE) && StateAt(n) < 5 && |MACHINE.states| == 5
    ensures MACHINE.states[StateAt(n)] == BitNode(if n % 4 == 3 then Hex else Silent, StateAt(n + 1), StateAt(n) == 4)
    ensures StateAt(n) == 4 <==> n > 0 && n % 4 == 0
  {
    MachineSound();
    hide Sound, BitNode, StateAt;
    StateCycle(n);
  }

  lemma EmittedNext(s: string, n: nat)
    requires n < |s|
    ensures Emitted(s, n + 1) == Emitted(s, n) + if n % 4 == 3 then [HexDigit(s[n - 3..n + 1])] else ""
  {
    hide HexDigit;
    assert (n + 1) % 4 == 0 <==> n % 4 == 3;
  }

  // One digit more.
  lemma HexStep(s: string, n: nat)
    requires n < Digits(s)
    ensures Sound(MACHINE) && StateAt(n) < |MACHINE.states| && StateAt(n + 1) < |MACHINE.states|
    ensures Run(MACHINE, StateAt(n), s, n, Emitted(s, n)) ==
      if n + 1 == |s| then Done(StateAt(n + 1) == 4, Emitted(s, n + 1))
      else Run(MACHINE, StateAt(n + 1), s, n + 1, Emitted(s, n + 1))
  {
    hide Run, StateAt, Sound, Emitted, First, Reads, HexDigit, Digits;
    Shape(n);
    Shape(n + 1);
    var output, rest := if n % 4 == 3 then Hex else Silent, s[n..];
    BitsOnly(s, Digits(s));
    assert rest[0] == s[n];
    BitStep(output, StateAt(n + 1), StateAt(n) == 4, rest);
    var e := First(MACHINE.states[StateAt(n)].entries, rest).value;
    var o := if n % 4 == 3 then [HexDigit(s[n - 3..n + 1])] else "";
    RunStep(MACHINE, StateAt(n), s, n, Emitted(s, n), e, o);
    EmittedNext(s, n);
  }

  lemma BitsOnly(s: string, n: nat)
    requires n <= |s| && AllBits(s[..n])
    ensures forall i | 0 <= i < n :: IsBit(s[i])
  {
    assert forall i | 0 <= i < n :: s[i] == s[..n][i];
  }

  // A character that is no digit has no transition.
  lemma NoBitStep(output: Output, next: nat, final: bool, rest: string)
    requires rest != [] && !IsBit(rest[0])
    ensures First(BitNode(output, next, final).entries, rest).None?
  {
    var es := BitNode(output, next, final).entries;
    assert !(es[0].key <= rest) && !(es[1].key <= rest);
    assert First(es, rest) == First(es[1..], rest) == First(es[1..][1..], rest);
    assert es[1..][1..] == [];
  }

  // What a text makes of the machine.
  function Verdict(s: string): Outcome {
    var n := Digits(s);
    if n < |s| && n < MAX_INPUT then NoTransition(Emitted(s, n)) else Done(n % 4 == 0, Emitted(s, n))
  }

  lemma HexEnd(s: string)
    requires Digits(s) < |s|
    ensures var n := Digits(s);
      Sound(MACHINE) && StateAt(n) < |MACHINE.states| && Run(MACHINE, StateAt(n), s, n, Emitted(s, n)) == Verdict(s)
  {
    hide StateAt, Emitted, First, Reads, Sound;
    var n := Digits(s);
    Shape(n);
    if n < MAX_INPUT {
      NoBitStep(if n % 4 == 3 then Hex else Silent, StateAt(n + 1), StateAt(n) == 4, s[n..]);
    }
  }

  lemma {:induction false} HexRun(s: string, n: nat)
    requires n < |s| && n <= Digits(s)
    ensures Sound(MACHINE) && StateAt(n) < |MACHINE.states|
    ensures Run(MACHINE, StateAt(n), s, n, Emitted(s, n)) == Verdict(s)
    decreases |s| - n
  {
    hide Run, StateAt, Sound, Emitted, AllBits, Leading;
    if n == Digits(s) {
      HexEnd(s);
    } else {
      HexStep(s, n);
      if n + 1 < |s| {
        HexRun(s, n + 1);
      } else {
        Shape(n + 1);
      }
    }
  }

  lemma DigitValue(b: string)
    requires |b| == 4
    ensures HexValue(HexDigit(b)) == Binary(b)
  {
    assert b[..3][..2] == b[..2] && b[..2][..1] == b[..1] && b[..1][..0] == [];
    assert Binary(b[..1]) == BitValue(b[0]);
    assert Binary(b[..2]) == 2 * Binary(b[..1]) + BitValue(b[1]);
    assert Binary(b[..3]) == 2 * Binary(b[..2]) + BitValue(b[2]);
    var v := Binary(b);
    assert 0 <= v < 16 && HexDigit(b) == HEX_DIGITS[v];
  }

  lemma BinaryPush(a: string, c: char)
    ensures Binary(a + [c]) == 2 * Binary(a) + BitValue(c)
  {
    assert (a + [c])[..|a|] == a;
  }

  lemma BinaryJoin(a: string, b: string)
    requires |b| == 4
    ensures Binary(a + b) == 16 * Binary(a) + Binary(b)
  {
    hide Binary;
    var a1, b1 := a + [b[0]], [] + [b[0]];
    var a2, b2 := a1 + [b[1]], b1 + [b[1]];
    var a3, b3 := a2 + [b[2]], b2 + [b[2]];
    BinaryPush(a, b[0]);
    BinaryPush(a1, b[1]);
    BinaryPush(a2, b[2]);
    BinaryPush(a3, b[3]);
    BinaryPush([], b[0]);
    BinaryPush(b1, b[1]);
    BinaryPush(b2, b[2]);
    BinaryPush(b3, b[3]);
    NoDigits();
    assert a + b == a3 + [b[3]] && b == b3 + [b[3]];
  }

  lemma NoDigits()
    ensures Binary([]) == 0
  {
  }

  lemma HexPush(t: string, c: char)
    ensures Hexadecimal(t + [c]) == 16 * Hexadecimal(t) + HexValue(c)
  {
    assert (t + [c])[..|t|] == t;
  }

  lemma {:induction false} EmittedValue(s: string, n: nat)
    requires n <= |s| && AllBits(s[..n])
    ensures Hexadecimal(Emitted(s, n)) == Binary(s[..n - n % 4]) && |Emitted(s, n)| == n / 4
  {
    hide Hexadecimal, Binary, HexValue, HexDigit, AllBits;
    if n > 0 {
      PrefixBits(s, n);
      EmittedValue(s, n - 1);
      var t := Emitted(s, n - 1);
      if n % 4 == 0 {
        var b := s[n - 4..n];
        DigitValue(b);
        BinaryJoin(s[..n - 4], b);
        HexPush(t, HexDigit(b));
        assert s[..n - 4] + b == s[..n];
      } else {
        assert Emitted(s, n) == t;
      }
    } else {
      Empty();
      assert s[..0] == [];
    }
  }

  lemma Empty()
    ensures Hexadecimal([]) == 0 == Binary([])
  {
  }

  lemma PrefixBits(s: string, n: nat)
    requires 0 < n <= |s| && AllBits(s[..n])
    ensures AllBits(s[..n - 1])
  {
    assert s[..n - 1] == s[..n][..n - 1];
  }

  /** On every text: a character that is no digit, among those that fit into the input
      buffer, ends the run without a result; otherwise it ends in the final state exactly
      if the digits read come in groups of four.  No assertion ever fails, and the output
      has the value of the whole groups of four digits read. */
  lemma PreservesValue(s: string)
    requires s != []
    ensures Sound(MACHINE)
    ensures var r, n := Run(MACHINE, MACHINE.initial, s, 0, ""), Digits(s);
      && (if n < |s| && n < MAX_INPUT then r.NoTransition? else r.Done? && (r.final <==> n % 4 == 0))
      && |r.out| == n / 4 && Hexadecimal(r.out) == Binary(s[..n - n % 4])
  {
    hide Run, Hexadecimal, Binary, Leading;
    Shape(0);
    HexRun(s, 0);
    EmittedValue(s, Digits(s));
  }
}

/** ip_validate of FSMImplementation/std_fsm.c, on text without a terminating zero. */
module IpValidator {
  import opened Common
  import opened Fsm

  function Wild(next: nat): Entry {
    Entry("", [AnyChar], Silent, next)
  }

  function OneOf(m: Matcher, next: nat): Entry {
    Entry("", [m], Silent, next)
  }

  function Exactly(c: char, next: nat): Entry {
    Entry([c], [], Silent, next)
  }

  const DEAD := 7

  // ip_address_octet_validator: the states q0 to q6 and the dead state.
  const OCTET := Machine([
    Node([Exactly('0', 1), Exactly('1', 1), Exactly('2', 3), Wild(DEAD)], false),
    Node([OneOf(Digit, 2), Wild(DEAD)], false),
    Node([OneOf(Digit, 6), Wild(DEAD)], false),
    Node([OneOf(Upto('4'), 4), Exactly('5', 5), Wild(DEAD)], false),
    Node([OneOf(Digit, 6), Wild(DEAD)], false),
    Node([OneOf(Upto('5'), 6), Wild(DEAD)], false),
    Node([Wild(DEAD)], true),
    Node([Wild(DEAD)], false)], 0)

  predicate IsDigit(c: char) {
    '0' <= c <= '9'
  }

  predicate AllDigits(s: string) {
    forall c | c in s :: IsDigit(c)
  }

  // The decimal value of digits.
  function Decimal(s: string): nat {
    if s == [] then 0 else 10 * Decimal(s[..|s| - 1]) + if IsDigit(s[|s| - 1]) then (s[|s| - 1] - '0') as nat else 0
  }

  // The table as a function of state and character.
  function Next(state: nat, c: char): nat {
    if state == 0 then (if c == '0' || c == '1' then 1 else if c == '2' then 3 else DEAD)
    else if state == 1 then (if IsDigit(c) then 2 else DEAD)
    else if state == 2 then (if IsDigit(c) then 6 else DEAD)
    else if state == 3 then (if '0' <= c <= '4' then 4 else if c == '5' then 5 else DEAD)
    else if state == 4 then (if IsDigit(c) then 6 else DEAD)
    else if state == 5 then (if '0' <= c <= '5' then 6 else DEAD)
    else DEAD
  }

  // One entry of a table in which every entry reads one character.
  predicate Applies(e: Entry, c: char) {
    if e.callbacks != [] then AnyMatches(e.callbacks, c) else e.key == [c]
  }

  lemma OneRead(e: Entry, rest: string)
    requires rest != [] && (e.callbacks != [] ==> e.key == "") && (e.callbacks == [] ==> |e.key| == 1)
    ensures Reads(e, rest) == if Applies(e, rest[0]) then Some(1) else None
  {
    if e.callbacks == [] {
      assert e.key <= rest <==> e.key[0] == rest[0];
    }
  }

  lemma FirstStep(es: seq<Entry>, rest: string)
    requires rest != [] && es != [] && (es[0].callbacks != [] ==> es[0].key == "") &&
      (es[0].callbacks == [] ==> |es[0].key| == 1)
    ensures First(es, rest) == if Applies(es[0], rest[0]) then Some(es[0]) else First(es[1..], rest)
  {
    OneRead(es[0], rest);
  }

  lemma AppliesOne(m: Matcher, c: char, next: nat)
    ensures Applies(OneOf(m, next), c) == Matches(m, c) && Applies(Wild(next), c)
  {
    assert [m][0] == m && [AnyChar][0] == AnyChar;
  }

  lemma FirstOfTwo(a: Entry, b: Entry, rest: string)
    requires rest != [] && (a.callbacks != [] ==> a.key == "") && (a.callbacks == [] ==> |a.key| == 1)
    requires b == Wild(DEAD)
    ensures First([a, b], rest) == Some(if Applies(a, rest[0]) then a else b) &&
      Reads(First([a, b], rest).value, rest) == Some(1)
  {
    FirstStep([a, b], rest);
    assert [a, b][1..] == [b];
    FirstStep([b], rest);
    AppliesOne(AnyChar, rest[0], DEAD);
    OneRead(a, rest);
    OneRead(b, rest);
  }

  lemma TableStep(state: nat, rest: string)
    requires state < 8 && rest != []
    ensures Sound(OCTET) && |OCTET.states| == 8
    ensures var hit := First(OCTET.states[state].entries, rest);
      hit.Some? && Reads(hit.value, rest) == Some(1) && hit.value.next == Next(state, rest[0]) &&
        hit.value.output == Silent && |hit.value.key| <= 1
  {
    hide First, Reads, AnyMatches;
    var es, c := OCTET.states[state].entries, rest[0];
    AppliesOne(Digit, c, 2);
    AppliesOne(Digit, c, 6);
    AppliesOne(Upto('4'), c, 4);
    AppliesOne(Upto('5'), c, 6);
    AppliesOne(AnyChar, c, DEAD);
    if state == 0 {
      FirstStep(es, rest);
      FirstStep(es[1..], rest);
      assert es[1..][1..] == [es[2], es[3]];
      FirstOfTwo(es[2], es[3], rest);
      OneRead(es[0], rest);
      OneRead(es[1], rest);
    } else if state == 3 {
      FirstStep(es, rest);
      assert es[1..] == [es[1], es[2]];
      FirstOfTwo(es[1], es[2], rest);
      OneRead(es[0], rest);
    } else if state == 6 || state == 7 {
      FirstStep(es, rest);
      OneRead(es[0], rest);
    } else {
      assert es == [es[0], es[1]];
      FirstOfTwo(es[0], es[1], rest);
    }
  }

  lemma OctetStep(state: nat, s: string, cursor: nat)
    requires state < 8 && cursor < |s| <= MAX_INPUT
    ensures Sound(OCTET) && |OCTET.states| == 8 && Next(state, s[cursor]) < 8
    ensures Run(OCTET, state, s, cursor, "") ==
      if cursor + 1 == |s| then Done(OCTET.states[Next(state, s[cursor])].final, "")
        else Run(OCTET, Next(state, s[cursor]), s, cursor + 1, "")
  {
    hide Run, First, Reads, Sound;
    TableStep(state, s[cursor..]);
    var e := First(OCTET.states[state].entries, s[cursor..]).value;
    assert ("") + "" == "";
    RunStep(OCTET, state, s, cursor, "", e, "");
  }

  /** The machine accepts three characters exactly if they are the digits of a
      number of at most 255. */
  lemma OctetAccepts(s: string)
    requires |s| == 3
    ensures Sound(OCTET) && Run(OCTET, OCTET.initial, s, 0, "") == Done(AllDigits(s) && Decimal(s) <= 255, "")
  {
    hide Run, Sound;
    OctetStep(0, s, 0);
    OctetStep(Next(0, s[0]), s, 1);
    OctetStep(Next(Next(0, s[0]), s[1]), s, 2);
    assert s[..2][..1] == s[..1] && s[..1][..0] == [] && s[0] in s && s[1] in s && s[2] in s;
    assert forall c | c in s :: c == s[0] || c == s[1] || c == s[2];
    assert Decimal(s[..1]) == if IsDigit(s[0]) then (s[0] - '0') as nat else 0;
    assert Decimal(s[..2]) == 10 * Decimal(s[..1]) + if IsDigit(s[1]) then (s[1] - '0') as nat else 0;
  }

  // ---------- tokens ----------

  // strtok: where the next token starts, and where a token ends.
  function Skip(s: string, at: nat): (p: nat)
    requires at <= |s|
    ensures at <= p <= |s| && (forall i | at <= i < p :: s[i] == '.') && (p < |s| ==> s[p] != '.')
    decreases |s| - at
  {
    if at < |s| && s[at] == '.' then Skip(s, at + 1) else at
  }

  function End(s: string, at: nat): (p: nat)
    requires at <= |s|
    ensures at <= p <= |s| && (forall i | at <= i < p :: s[i] != '.') && (p < |s| ==> s[p] == '.')
    decreases |s| - at
  {
    if at < |s| && s[at] != '.' then End(s, at + 1) else at
  }

  // The tokens that repeated calls return.
  function Tokens(s: string, at: nat): seq<string>
    requires at <= |s|
    decreases |s| - at
  {
    var p := Skip(s, at);
    if p == |s| then [] else [s[p..End(s, p)]] + Tokens(s, End(s, p))
  }

  /** The text cut at every dot. */
  function Pieces(s: string): (ps: seq<string>)
    ensures ps != []
  {
    if s == "" then [""]
    else
      var ps := Pieces(s[1..]);
      if s[0] == '.' then [""] + ps else [[s[0]] + ps[0]] + ps[1..]
  }

  function NonEmpty(ps: seq<string>): seq<string> {
    if ps == [] then [] else (if ps[0] == "" then [] else [ps[0]]) + NonEmpty(ps[1..])
  }

  lemma {:induction false} FirstPiece(s: string, p: nat)
    requires p <= |s| && (forall i | 0 <= i < p :: s[i] != '.') && (p < |s| ==> s[p] == '.')
    ensures Pieces(s) == [s[..p]] + if p == |s| then [] else Pieces(s[p + 1..])
  {
    if p > 0 {
      FirstPiece(s[1..], p - 1);
      assert s[..p] == [s[0]] + s[1..][..p - 1];
      assert p < |s| ==> s[1..][p..] == s[p + 1..];
    } else {
      assert s[..0] == "";
      if s != "" { assert s[p + 1..] == s[1..]; }
    }
  }

  lemma DotPiece(s: string, at: nat)
    requires at < |s| && s[at] == '.'
    ensures Pieces(s[at..]) == [""] + Pieces(s[at + 1..]) && Tokens(s, at) == Tokens(s, at + 1)
  {
    assert s[at..][1..] == s[at + 1..];
  }

  lemma TokenNext(s: string, at: nat)
    requires at < |s| && s[at] != '.'
    ensures Tokens(s, at) == [s[at..End(s, at)]] + Tokens(s, End(s, at)) && at < End(s, at)
  {
    hide Pieces;
    assert Skip(s, at) == at;
  }

  // The piece from `at` on ends at the dot at `e`, or with the text.
  lemma PieceAt(s: string, at: nat, e: nat)
    requires at <= e <= |s| && (forall i | at <= i < e :: s[i] != '.') && (e < |s| ==> s[e] == '.')
    ensures Pieces(s[at..]) == [s[at..e]] + if e == |s| then [] else Pieces(s[e + 1..])
  {
    hide Pieces;
    var rest := s[at..];
    assert forall i | 0 <= i < e - at :: rest[i] == s[at + i];
    assert e < |s| ==> rest[e - at] == s[e];
    FirstPiece(rest, e - at);
    assert rest[..e - at] == s[at..e];
    if e < |s| { assert rest[e - at + 1..] == s[e + 1..]; }
  }

  lemma TokenPiece(s: string, at: nat)
    requires at < |s| && s[at] != '.'
    ensures Pieces(s[at..]) == [s[at..End(s, at)]] + if End(s, at) == |s| then [] else Pieces(s[End(s, at) + 1..])
    ensures Tokens(s, at) == [s[at..End(s, at)]] + Tokens(s, End(s, at)) && at < End(s, at)
  {
    hide Pieces, Tokens, End, Skip;
    TokenNext(s, at);
    PieceAt(s, at, End(s, at));
  }

  lemma NoMore(s: string)
    ensures Tokens(s, |s|) == [] && Pieces(s[|s|..]) == [""] && NonEmpty([""]) == [] && NonEmpty([]) == []
  {
    assert s[|s|..] == "";
    assert [""][1..] == [];
  }

  /** The tokens are the non-empty pieces between dots. */
  lemma {:induction false} TokensArePieces(s: string, at: nat)
    requires at <= |s|
    ensures Tokens(s, at) == NonEmpty(Pieces(s[at..]))
    decreases |s| - at
  {
    hide Tokens, Pieces, NonEmpty, End;
    if at == |s| {
      NoMore(s);
    } else if s[at] == '.' {
      DotPiece(s, at);
      TokensArePieces(s, at + 1);
      Dropped(Pieces(s[at + 1..]));
    } else {
      TokenPiece(s, at);
      var e := End(s, at);
      TokensArePieces(s, e);
      NoMore(s);
      if e < |s| {
        DotPiece(s, e);
        Kept(s[at..e], Pieces(s[e + 1..]));
        Dropped(Pieces(s[e + 1..]));
      } else {
        Kept(s[at..e], []);
        assert [s[at..e]] + [] == [s[at..e]];
      }
    }
  }

  lemma Kept(p: string, ps: seq<string>)
    requires p != ""
    ensures NonEmpty([p] + ps) == [p] + NonEmpty(ps)
  {
    assert ([p] + ps)[1..] == ps;
  }

  lemma Dropped(ps: seq<string>)
    ensures NonEmpty([""] + ps) == NonEmpty(ps)
  {
    assert ([""] + ps)[1..] == ps;
  }

  // strtok.
  method NextToken(s: string, at: nat) returns (found: bool, token: string, rest: nat)
    requires at <= |s|
    ensures rest <= |s| && (found <==> Tokens(s, at) != [])
    ensures found ==> token == Tokens(s, at)[0] && token != "" && Tokens(s, at) == [token] + Tokens(s, rest)
  {
    var p := at;
    while p < |s| && s[p] == '.'
      invariant at <= p <= |s| && Skip(s, at) == Skip(s, p)
    {
      p := p + 1;
    }
    if p == |s| {
      return false, "", p;
    }
    rest := p;
    while rest < |s| && s[rest] != '.'
      invariant p <= rest <= |s| && End(s, p) == End(s, rest)
    {
      rest := rest + 1;
    }
    found, token := true, s[p..rest];
  }

  // ---------- validation ----------

  // normalize_ipv4_token.
  method Normalize(token: string) returns (octet: string)
    requires 1 <= |token| <= 3
    ensures |octet| == 3 && AllDigits(octet) == AllDigits(token) && Decimal(octet) == Decimal(token)
  {
    match |token|
    case 1 =>
      octet := ['0', '0', token[0]];
      Padded(token);
      assert octet == "0" + ("0" + token);
      Padded("0" + token);
    case 2 =>
      octet := ['0', token[0], token[1]];
      assert octet == "0" + token;
      Padded(token);
    case 3 =>
      octet := [token[0], token[1], token[2]];
      assert octet == token;
  }

  lemma {:induction false} Padded(s: string)
    ensures Decimal("0" + s) == Decimal(s) && AllDigits("0" + s) == AllDigits(s)
  {
    if s == "" {
      assert "0" + s == "0";
      assert "0"[..0] == "";
    } else {
      Padded(s[..|s| - 1]);
      assert ("0" + s)[..|s|] == "0" + s[..|s| - 1];
    }
    assert forall c | c in "0" + s :: c == '0' || c in s;
    assert forall c | c in s :: c in "0" + s;
  }

  /** One number of an address. */
  predicate IsOctet(t: string) {
    1 <= |t| <= 3 && AllDigits(t) && Decimal(t) <= 255
  }

  // The steps of ip_validate for one token.
  method ValidOctet(token: string) returns (ok: bool)
    requires token != ""
    ensures ok == IsOctet(token)
  {
    if |token| > 3 {
      return false;
    }
    var octet := Normalize(token);
    OctetAccepts(octet);
    var r := Execute(OCTET, octet);
    ok := r.Done? && r.final;
  }

  /** ip_validate accepts exactly the texts whose non-empty pieces between dots are
      four numbers of one to three digits and at most 255. */
  method Validate(s: string) returns (ok: bool)
    requires |s| <= 15
    ensures var ts := NonEmpty(Pieces(s)); ok == (|ts| == 4 && forall i | 0 <= i < 4 :: IsOctet(ts[i]))
  {
    hide Tokens, IsOctet, Pieces, NonEmpty;
    TokensArePieces(s, 0);
    assert s[0..] == s;
    ghost var ts := Tokens(s, 0);
    var found, token, rest := NextToken(s, 0);
    if !found {
      return false;
    }
    var good := ValidOctet(token);
    if !good {
      assert !IsOctet(ts[0]);
      return false;
    }
    found, token, rest := NextToken(s, rest);
    if !found {
      return false;
    }
    good := ValidOctet(token);
    if !good {
      assert !IsOctet(ts[1]);
      return false;
    }
    found, token, rest := NextToken(s, rest);
    if !found {
      return false;
    }
    good := ValidOctet(token);
    if !good {
      assert !IsOctet(ts[2]);
      return false;
    }
    found, token, rest := NextToken(s, rest);
    if !found {
      return false;
    }
    good := ValidOctet(token);
    if !good {
      assert !IsOctet(ts[3]);
      return false;
    }
    found, token, rest := NextToken(s, rest);
    ok := !found;
  }
}
