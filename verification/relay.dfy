/** The phase-authority processes and the light-state relay of main.cpp.
    Each authority writes 8-byte tags ("F10_NS_G", ...) on its own pipe;
    the relay thread reads 8 bytes at a time from each pipe and applies a
    tag of its own intersection to that intersection's lights. Pipes are
    modelled as the sequence of 8-byte writes and of reads they carry. */
module Relay {
  import opened Wrappers
  import opened Vehicles
  import opened Intersections
  import opened Controller
  import opened Globals
  import Config

  // ---------------------------------------------------------------------
  // Tags

  function IdText(i: IntersectionId): string {
    if i == F10 then "F10" else "F11"
  }

  function AxisText(a: Axis): string {
    if a == NorthSouth then "NS" else "EW"
  }

  function LightLetter(l: Light): char {
    match l
    case Green => 'G'
    case Yellow => 'Y'
    case Red => 'R'
  }

  /** The tag an authority writes for a phase change, e.g. "F10_NS_G". */
  function Tag(i: IntersectionId, p: Phase): (t: string)
    ensures |t| == 8 && '\0' !in t
  {
    IdText(i) + "_" + AxisText(p.axis) + "_" + [LightLetter(p.light)]
  }

  /** Reads a tag back; None for any string that is not one of the twelve. */
  function ParseTag(s: string): Option<(IntersectionId, Phase)> {
    if |s| != 8 || s[3] != '_' || s[6] != '_' then None
    else
      var id := if s[..3] == "F10" then Some(F10) else if s[..3] == "F11" then Some(F11) else None;
      var axis := if s[4..6] == "NS" then Some(NorthSouth) else if s[4..6] == "EW" then Some(EastWest) else None;
      var light := if s[7] == 'G' then Some(Green) else if s[7] == 'Y' then Some(Yellow)
                   else if s[7] == 'R' then Some(Red) else None;
      if id.Some? && axis.Some? && light.Some? then Some((id.value, Phase(axis.value, light.value)))
      else None
  }

  /** Every tag is read back as the phase change it was written for. */
  lemma TagRoundTrip(i: IntersectionId, p: Phase)
    ensures ParseTag(Tag(i, p)) == Some((i, p))
  {
    var id, axis, light := IdText(i), AxisText(p.axis), [LightLetter(p.light)];
    var t := Tag(i, p);
    assert t == id + "_" + axis + "_" + light;
    assert |id| == 3 && |axis| == 2;
    assert t[..3] == id;
    assert t[4..6] == axis;
    assert t[7] == LightLetter(p.light);
  }

  /** Whatever is read as a tag is exactly that tag, so two phase changes
      never share a tag. */
  lemma ParseTagExact(s: string)
    requires ParseTag(s).Some?
    ensures Tag(ParseTag(s).value.0, ParseTag(s).value.1) == s
  {
    var q := ParseTag(s).value;
    var t := Tag(q.0, q.1);
    assert s == s[..3] + "_" + s[4..6] + "_" + [s[7]];
    assert t == IdText(q.0) + "_" + AxisText(q.1.axis) + "_" + [LightLetter(q.1.light)];
  }

  lemma TagIff(s: string, i: IntersectionId, p: Phase)
    ensures s == Tag(i, p) <==> ParseTag(s) == Some((i, p))
  {
    TagRoundTrip(i, p);
    if ParseTag(s) == Some((i, p)) {
      ParseTagExact(s);
    }
  }

  /** `string(buffer)` after `buffer[n] = '\0'`: the characters before the
      first NUL. */
  function CString(buf: seq<char>): (s: seq<char>)
    ensures |s| <= |buf| && s == buf[..|s|]
    ensures '\0' !in s
    ensures |s| < |buf| ==> buf[|s|] == '\0'
  {
    if buf == [] || buf[0] == '\0' then []
    else [buf[0]] + CString(buf[1..])
  }

  /** The NUL cut is harmless for tags: eight bytes read as a tag exactly
      when they are that tag. */
  lemma CStringOfTag(data: seq<char>, i: IntersectionId, p: Phase)
    requires |data| == 8
    ensures CString(data) == Tag(i, p) <==> data == Tag(i, p)
  {
  }

  // ---------------------------------------------------------------------
  // The relay

  /** The effect of one read on the lights of intersection `i`: eight bytes
      that carry a tag of `i` apply that phase change; a short read, a
      foreign tag or anything else changes nothing. */
  function RelaySignals(i: IntersectionId, g: Signals, data: seq<char>): Signals {
    if |data| != 8 then g
    else
      match ParseTag(CString(data))
      case Some((j, p)) => if j == i then ApplyPhase(g, p) else g
      case None => g
  }

  /** The lights after a sequence of reads, applied in arrival order. */
  function Relayed(i: IntersectionId, g: Signals, chunks: seq<seq<char>>): Signals
    decreases |chunks|
  {
    if chunks == [] then g
    else RelaySignals(i, Relayed(i, g, chunks[..|chunks| - 1]), chunks[|chunks| - 1])
  }

  /** One read handled by lightStateListenerThread: the message is compared
      with the six tags of the pipe's intersection and the matching one sets
      the lights. */
  method RelayRead(x: Intersection, data: seq<char>)
    requires x.Valid()
    modifies x
    ensures x.Valid() && x.id == old(x.id)
    ensures x.AllQueues() == old(x.AllQueues()) && x.EmergencyRecord() == old(x.EmergencyRecord())
    ensures x.Lights() == RelaySignals(x.id, old(x.Lights()), data)
  {
    if |data| != 8 {
      return;
    }
    var msg := CString(data);
    ghost var g := x.Lights();
    if msg == Tag(x.id, Phase(NorthSouth, Green)) {
      TagIff(msg, x.id, Phase(NorthSouth, Green));
      x.SetControllerLight(North, Green);
      x.SetControllerLight(South, Green);
      x.SetControllerLight(East, Red);
      x.SetControllerLight(West, Red);
    } else if msg == Tag(x.id, Phase(NorthSouth, Yellow)) {
      TagIff(msg, x.id, Phase(NorthSouth, Yellow));
      x.SetControllerLight(North, Yellow);
      x.SetControllerLight(South, Yellow);
    } else if msg == Tag(x.id, Phase(NorthSouth, Red)) {
      TagIff(msg, x.id, Phase(NorthSouth, Red));
      x.SetControllerLight(North, Red);
      x.SetControllerLight(South, Red);
    } else if msg == Tag(x.id, Phase(EastWest, Green)) {
      TagIff(msg, x.id, Phase(EastWest, Green));
      x.SetControllerLight(East, Green);
      x.SetControllerLight(West, Green);
      x.SetControllerLight(North, Red);
      x.SetControllerLight(South, Red);
    } else if msg == Tag(x.id, Phase(EastWest, Yellow)) {
      TagIff(msg, x.id, Phase(EastWest, Yellow));
      x.SetControllerLight(East, Yellow);
      x.SetControllerLight(West, Yellow);
    } else if msg == Tag(x.id, Phase(EastWest, Red)) {
      TagIff(msg, x.id, Phase(EastWest, Red));
      x.SetControllerLight(East, Red);
      x.SetControllerLight(West, Red);
    } else {
      if ParseTag(msg).Some? && ParseTag(msg).value.0 == x.id {
        ParseTagExact(msg);
        assert false;
      }
    }
    SignalsExt(x.Lights(), RelaySignals(x.id, g, data));
  }

  /** Two light states that agree on every side are equal. */
  lemma SignalsExt(a: Signals, b: Signals)
    requires forall s :: LightAt(a, s) == LightAt(b, s)
    ensures a == b
  {
    assert LightAt(a, North) == LightAt(b, North) && LightAt(a, South) == LightAt(b, South);
    assert LightAt(a, East) == LightAt(b, East) && LightAt(a, West) == LightAt(b, West);
  }

  /** What select reported ready in one turn of the listener, and what the
      read returned on it. */
  datatype ListenerRound = ListenerRound(f10: Option<seq<char>>, f11: Option<seq<char>>)

  /** The reads the listener made on intersection `i`'s pipe, in order. */
  function ReadsOf(rounds: seq<ListenerRound>, i: IntersectionId): seq<seq<char>>
    decreases |rounds|
  {
    if rounds == [] then []
    else
      var last := rounds[|rounds| - 1];
      var r := if i == F10 then last.f10 else last.f11;
      ReadsOf(rounds[..|rounds| - 1], i) + (if r.Some? then [r.value] else [])
  }

  /** One turn of lightStateListenerThread: the F10 read, if select
      reported one, then the F11 read. */
  method ListenerTurn(w: Simulation, round: ListenerRound)
    requires w.Valid()
    modifies w.f10, w.f11
    ensures w.Valid()
    ensures w.f10.AllQueues() == old(w.f10.AllQueues()) && w.f11.AllQueues() == old(w.f11.AllQueues())
    ensures w.f10.EmergencyRecord() == old(w.f10.EmergencyRecord())
    ensures w.f11.EmergencyRecord() == old(w.f11.EmergencyRecord())
    ensures w.f10.Lights() == if round.f10.Some? then RelaySignals(F10, old(w.f10.Lights()), round.f10.value) else old(w.f10.Lights())
    ensures w.f11.Lights() == if round.f11.Some? then RelaySignals(F11, old(w.f11.Lights()), round.f11.value) else old(w.f11.Lights())
  {
    if round.f10.Some? {
      RelayRead(w.f10, round.f10.value);
    }
    if round.f11.Some? {
      RelayRead(w.f11, round.f11.value);
    }
  }

  /** lightStateListenerThread: while shutdown is not set, each turn relays
      what select found on the two pipes. */
  method LightStateListener(w: Simulation, rounds: seq<ListenerRound>)
    requires w.Valid()
    modifies w.f10, w.f11
    ensures w.Valid()
    ensures w.f10.AllQueues() == old(w.f10.AllQueues()) && w.f11.AllQueues() == old(w.f11.AllQueues())
    ensures w.f10.EmergencyRecord() == old(w.f10.EmergencyRecord())
    ensures w.f11.EmergencyRecord() == old(w.f11.EmergencyRecord())
    ensures w.shutdown ==> w.f10.Lights() == old(w.f10.Lights()) && w.f11.Lights() == old(w.f11.Lights())
    ensures !w.shutdown ==> w.f10.Lights() == Relayed(F10, old(w.f10.Lights()), ReadsOf(rounds, F10))
    ensures !w.shutdown ==> w.f11.Lights() == Relayed(F11, old(w.f11.Lights()), ReadsOf(rounds, F11))
  {
    if w.shutdown {
      return;
    }
    ghost var g10 := w.f10.Lights();
    ghost var g11 := w.f11.Lights();
    var t := 0;
    while t < |rounds| && !w.shutdown
      invariant 0 <= t <= |rounds|
      invariant w.Valid()
      invariant w.f10.AllQueues() == old(w.f10.AllQueues()) && w.f11.AllQueues() == old(w.f11.AllQueues())
      invariant w.f10.EmergencyRecord() == old(w.f10.EmergencyRecord())
      invariant w.f11.EmergencyRecord() == old(w.f11.EmergencyRecord())
      invariant w.f10.Lights() == Relayed(F10, g10, ReadsOf(rounds[..t], F10))
      invariant w.f11.Lights() == Relayed(F11, g11, ReadsOf(rounds[..t], F11))
    {
      ReadsOfSnoc(rounds, t);
      ListenerTurn(w, rounds[t]);
      if rounds[t].f10.Some? {
        RelayedSnoc(F10, g10, ReadsOf(rounds[..t], F10), rounds[t].f10.value);
      }
      if rounds[t].f11.Some? {
        RelayedSnoc(F11, g11, ReadsOf(rounds[..t], F11), rounds[t].f11.value);
      }
      t := t + 1;
    }
    assert rounds[..|rounds|] == rounds;
  }

  lemma ReadsOfSnoc(rounds: seq<ListenerRound>, t: nat)
    requires t < |rounds|
    ensures ReadsOf(rounds[..t + 1], F10) ==
      if rounds[t].f10.Some? then ReadsOf(rounds[..t], F10) + [rounds[t].f10.value] else ReadsOf(rounds[..t], F10)
    ensures ReadsOf(rounds[..t + 1], F11) ==
      if rounds[t].f11.Some? then ReadsOf(rounds[..t], F11) + [rounds[t].f11.value] else ReadsOf(rounds[..t], F11)
  {
    assert rounds[..t + 1][..t] == rounds[..t];
    assert ReadsOf(rounds[..t], F10) + [] == ReadsOf(rounds[..t], F10);
    assert ReadsOf(rounds[..t], F11) + [] == ReadsOf(rounds[..t], F11);
  }

  lemma RelayedSnoc(i: IntersectionId, g: Signals, chunks: seq<seq<char>>, data: seq<char>)
    ensures Relayed(i, g, chunks + [data]) == RelaySignals(i, Relayed(i, g, chunks), data)
  {
    assert (chunks + [data])[..|chunks|] == chunks;
  }

  // ---------------------------------------------------------------------
  // The phase authorities

  /** The six phase changes each authority process announces, in order. */
  function FullCycle(): (c: seq<Phase>)
    ensures |c| == 6
  {
    AxisCycle(NorthSouth) + AxisCycle(EastWest)
  }

  /** How many loop turns of an authority announce a cycle: the turns before
      the first SHUTDOWN token whose read did not return an emergency token. */
  function AuthorityTurns(inbox: seq<Option<char>>): (n: nat)
    ensures n <= |inbox|
  {
    if inbox == [] || inbox[0] == Some(Config.MSG_SHUTDOWN) then 0
    else if inbox[0] == Some(Config.MSG_EMERGENCY_EASTBOUND) || inbox[0] == Some(Config.MSG_EMERGENCY_WESTBOUND) then
      AuthorityTurns(inbox[1..])
    else 1 + AuthorityTurns(inbox[1..])
  }

  function Min(a: int, b: int): int {
    if a <= b then a else b
  }

  /** `s` is the start of the endless repetition of the cycle's tags. */
  ghost predicate IsCyclePrefix(i: IntersectionId, s: seq<string>) {
    forall k :: 0 <= k < |s| ==> s[k] == Tag(i, FullCycle()[k % 6])
  }

  lemma CyclePrefixSnoc(i: IntersectionId, s: seq<string>, p: Phase)
    requires IsCyclePrefix(i, s) && p == FullCycle()[|s| % 6]
    ensures IsCyclePrefix(i, s + [Tag(i, p)])
  {
    var s' := s + [Tag(i, p)];
    forall k | 0 <= k < |s'|
      ensures s'[k] == Tag(i, FullCycle()[k % 6])
    {
      if k < |s| {
        assert s'[k] == s[k];
      }
    }
  }

  /** f10ControllerProcess and f11ControllerProcess. Each loop turn reads the
      control pipe once (`inbox`, None when nothing was there): SHUTDOWN ends
      the loop, an emergency token skips the turn, anything else lets the
      turn write the six tags of a full cycle. The termination signal is
      seen before every write; `signalAfter` is the number of tags written
      before it arrives. The tags written are the six-phase cycle repeated,
      cut where the signal or the inbox ends it. */
  method PhaseAuthority(i: IntersectionId, inbox: seq<Option<char>>, signalAfter: nat) returns (emitted: seq<string>)
    ensures |emitted| == Min(signalAfter, 6 * AuthorityTurns(inbox))
    ensures forall k :: 0 <= k < |emitted| ==> emitted[k] == Tag(i, FullCycle()[k % 6])
  {
    emitted := [];
    var t := 0;
    ghost var turns := 0;
    while t < |inbox| && |emitted| < signalAfter
      invariant 0 <= t <= |inbox|
      invariant AuthorityTurns(inbox) == turns + AuthorityTurns(inbox[t..])
      invariant |emitted| == Min(signalAfter, 6 * turns)
      invariant IsCyclePrefix(i, emitted)
    {
      assert inbox[t..][1..] == inbox[t + 1..];
      var msg := inbox[t];
      if msg == Some(Config.MSG_SHUTDOWN) {
        break;
      }
      t := t + 1;
      if msg == Some(Config.MSG_EMERGENCY_EASTBOUND) || msg == Some(Config.MSG_EMERGENCY_WESTBOUND) {
        continue;
      }
      turns := turns + 1;
      emitted := WriteCycle(i, emitted, signalAfter);
    }
  }

  /** Within a turn that starts at a multiple of six, the k-th write is
      the k-th phase change of the cycle. */
  lemma CycleOffset(m: int, k: int)
    requires m >= 0 && m % 6 == 0 && 0 <= k < 6
    ensures (m + k) % 6 == k
  {
  }

  /** The writes of one authority turn: the six tags of the cycle in order,
      each preceded by the check of the termination flag, which is set once
      `signalAfter` tags have been written. */
  method WriteCycle(i: IntersectionId, before: seq<string>, signalAfter: nat) returns (after: seq<string>)
    requires IsCyclePrefix(i, before) && |before| % 6 == 0
    ensures IsCyclePrefix(i, after)
    ensures |after| == if |before| >= signalAfter then |before| else Min(signalAfter, |before| + 6)
  {
    ghost var c := FullCycle();
    ghost var m := |before|;
    after := before;
    if |after| >= signalAfter { return; }
    CycleOffset(m, 0);
    CyclePrefixSnoc(i, after, c[0]);
    after := after + [Tag(i, Phase(NorthSouth, Green))];
    if |after| >= signalAfter { return; }
    CycleOffset(m, 1);
    CyclePrefixSnoc(i, after, c[1]);
    after := after + [Tag(i, Phase(NorthSouth, Yellow))];
    if |after| >= signalAfter { return; }
    CycleOffset(m, 2);
    CyclePrefixSnoc(i, after, c[2]);
    after := after + [Tag(i, Phase(NorthSouth, Red))];
    if |after| >= signalAfter { return; }
    CycleOffset(m, 3);
    CyclePrefixSnoc(i, after, c[3]);
    after := after + [Tag(i, Phase(EastWest, Green))];
    if |after| >= signalAfter { return; }
    CycleOffset(m, 4);
    CyclePrefixSnoc(i, after, c[4]);
    after := after + [Tag(i, Phase(EastWest, Yellow))];
    if |after| >= signalAfter { return; }
    CycleOffset(m, 5);
    CyclePrefixSnoc(i, after, c[5]);
    after := after + [Tag(i, Phase(EastWest, Red))];
  }

  // ---------------------------------------------------------------------
  // Authority and relay together

  /** The lights after the first k+1 phase changes of the cycle, written
      out: north-south GREEN, YELLOW, all RED, then east-west GREEN,
      YELLOW, all RED. */
  function CycleState(k: nat): Signals
    requires k < 6
  {
    if k == 0 then Signals(Green, Green, Red, Red)
    else if k == 1 then Signals(Yellow, Yellow, Red, Red)
    else if k == 3 then Signals(Red, Red, Green, Green)
    else if k == 4 then Signals(Red, Red, Yellow, Yellow)
    else AllRed
  }

  /** Every state of the cycle keeps the normal-mode invariant, and the
      sixth is all RED. */
  lemma CycleStatesExclusive(k: nat)
    requires k < 6
    ensures AxesExclusive(CycleState(k))
    ensures k == 5 ==> CycleState(k) == AllRed
  {
  }

  /** A GREEN phase sets all four lights, so it forgets the state before it. */
  lemma GreenForgets(g: Signals, h: Signals, a: Axis)
    ensures ApplyPhase(g, Phase(a, Green)) == ApplyPhase(h, Phase(a, Green))
  {
    SignalsExt(ApplyPhase(g, Phase(a, Green)), ApplyPhase(h, Phase(a, Green)));
  }

  /** One more phase change moves the cycle one state on, wrapping round. */
  lemma CycleStep(k: nat)
    requires k < 6
    ensures ApplyPhase(CycleState(k), FullCycle()[(k + 1) % 6]) == CycleState((k + 1) % 6)
  {
    var c := FullCycle();
    if k == 0 {
      assert ApplyPhase(CycleState(0), c[1]) == CycleState(1);
    } else if k == 1 {
      assert ApplyPhase(CycleState(1), c[2]) == CycleState(2);
    } else if k == 2 {
      assert ApplyPhase(CycleState(2), c[3]) == CycleState(3);
    } else if k == 3 {
      assert ApplyPhase(CycleState(3), c[4]) == CycleState(4);
    } else if k == 4 {
      assert ApplyPhase(CycleState(4), c[5]) == CycleState(5);
    } else {
      assert ApplyPhase(CycleState(5), c[0]) == CycleState(0);
    }
  }

  /** The table is what the first k+1 phase changes of the cycle make of
      all RED. */
  lemma {:induction false} CycleStateFromAllRed(k: nat)
    requires k < 6
    ensures CycleState(k) == ApplyPhases(AllRed, FullCycle()[..k + 1])
  {
    var c := FullCycle();
    ApplyPhasesSnoc(AllRed, c[..k], c[k]);
    assert c[..k + 1] == c[..k] + [c[k]];
    if k == 0 {
      assert c[..0] == [];
      CycleStep(5);
    } else {
      CycleStateFromAllRed(k - 1);
      CycleStep(k - 1);
    }
  }

  /** A tag of the relay's own intersection applies its phase change. */
  lemma RelayTagApplies(i: IntersectionId, g: Signals, p: Phase)
    ensures RelaySignals(i, g, Tag(i, p)) == ApplyPhase(g, p)
  {
    TagRoundTrip(i, p);
    CStringOfTag(Tag(i, p), i, p);
  }

  /** The relay follows its authority: whatever the lights were, once the
      relay has applied the first n >= 1 tags an authority writes, in the
      order written, the intersection shows the cycle state of the n-th
      phase change. */
  lemma {:induction false} RelayFollowsAuthority(i: IntersectionId, g: Signals, tags: seq<string>)
    requires |tags| >= 1 && IsCyclePrefix(i, tags)
    ensures Relayed(i, g, tags) == CycleState((|tags| - 1) % 6)
  {
    var n := |tags|;
    RelayedLastTag(i, g, tags);
    if n == 1 {
      assert tags[..0] == [];
      GreenForgets(g, AllRed, NorthSouth);
      CycleStep(5);
    } else {
      CyclePrefixDrop(i, tags);
      RelayFollowsAuthority(i, g, tags[..n - 1]);
      CycleStepAt(n);
    }
  }

  /** Applying the last tag an authority wrote is the next phase change of
      the cycle. */
  lemma RelayedLastTag(i: IntersectionId, g: Signals, tags: seq<string>)
    requires |tags| >= 1 && IsCyclePrefix(i, tags)
    ensures Relayed(i, g, tags) == ApplyPhase(Relayed(i, g, tags[..|tags| - 1]), FullCycle()[(|tags| - 1) % 6])
  {
    var p := FullCycle()[(|tags| - 1) % 6];
    assert tags[|tags| - 1] == Tag(i, p);
    RelayTagApplies(i, Relayed(i, g, tags[..|tags| - 1]), p);
  }

  /** A prefix of what an authority writes is again such a prefix. */
  lemma CyclePrefixDrop(i: IntersectionId, tags: seq<string>)
    requires |tags| >= 1 && IsCyclePrefix(i, tags)
    ensures IsCyclePrefix(i, tags[..|tags| - 1])
  {
    var prefix := tags[..|tags| - 1];
    forall j | 0 <= j < |prefix|
      ensures prefix[j] == Tag(i, FullCycle()[j % 6])
    {
      assert prefix[j] == tags[j];
    }
  }

  lemma ModLast(n: int)
    requires n >= 1
    ensures n % 6 == 0 <==> (n - 1) % 6 == 5
  {
  }

  /** CycleStep, indexed by the number of phase changes so far. */
  lemma CycleStepAt(n: int)
    requires n >= 2
    ensures ApplyPhase(CycleState((n - 2) % 6), FullCycle()[(n - 1) % 6]) == CycleState((n - 1) % 6)
  {
    var j := (n - 2) % 6;
    assert (j + 1) % 6 == (n - 1) % 6;
    CycleStep(j);
  }

  /** Hence the relayed lights always keep the normal-mode invariant, and
      after every whole cycle they are all RED. */
  lemma RelayedAuthorityExclusive(i: IntersectionId, g: Signals, tags: seq<string>)
    requires |tags| >= 1 && IsCyclePrefix(i, tags)
    ensures AxesExclusive(Relayed(i, g, tags))
    ensures |tags| % 6 == 0 ==> Relayed(i, g, tags) == AllRed
  {
    RelayFollowsAuthority(i, g, tags);
    ModLast(|tags|);
    CycleStatesExclusive((|tags| - 1) % 6);
  }

  /** The relay ignores short reads and the other intersection's tags. */
  lemma RelayIgnores(i: IntersectionId, g: Signals, data: seq<char>, p: Phase)
    ensures |data| != 8 ==> RelaySignals(i, g, data) == g
    ensures RelaySignals(i, g, Tag(OtherIntersection(i), p)) == g
  {
    TagRoundTrip(OtherIntersection(i), p);
    CStringOfTag(Tag(OtherIntersection(i), p), OtherIntersection(i), p);
  }

  /** The relay does not look at emergency mode: a north-south GREEN tag
      arriving while a corridor holds the lights replaces the corridor
      pattern with north-south GREEN. */
  lemma RelayOverridesCorridor(i: IntersectionId, g: Signals, c: Corridor)
    requires CorridorPattern(g, CorridorEntry(c), CorridorExit(c))
    ensures var r := RelaySignals(i, g, Tag(i, Phase(NorthSouth, Green)));
      r == Signals(Green, Green, Red, Red) && !CorridorPattern(r, CorridorEntry(c), CorridorExit(c))
  {
    var t := Tag(i, Phase(NorthSouth, Green));
    TagRoundTrip(i, Phase(NorthSouth, Green));
    CStringOfTag(t, i, Phase(NorthSouth, Green));
    var r := RelaySignals(i, g, t);
    SignalsExt(r, Signals(Green, Green, Red, Red));
    assert LightAt(r, CorridorEntry(c)) == Red;
  }
}
