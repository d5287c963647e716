/** What the log reader reports: nothing it meets is lost without a word. */
module LogReports {
  import opened Coding
  import opened LogFormat
  import opened LogReader

  function Total(ns: seq<nat>): nat {
    if ns == [] then 0 else ns[0] + Total(ns[1..])
  }

  lemma {:induction false} TotalAppend(a: seq<nat>, b: seq<nat>)
    ensures Total(a + b) == Total(a) + Total(b)
  {
    if a == [] {
      assert a + b == b;
    } else {
      assert (a + b)[1..] == a[1..] + b;
      TotalAppend(a[1..], b);
    }
  }

  // The bytes in the records returned.
  function DataOf(rs: seq<Record>): nat {
    if rs == [] then 0 else |rs[0].data| + DataOf(rs[1..])
  }

  // The bytes met before the end.  Types 5 and 6 stand for the end and for a bad record, also when they are read.
  function Met(es: seq<Event>): nat {
    if es == [] then 0
    else match es[0]
         case Eof => 0
         case Bad(drops, _) => Total(drops) + Met(es[1..])
         case Frag(kind, payload, _) =>
           if kind == 5 then 0 else if kind == 6 then Met(es[1..]) else |payload| + Met(es[1..])
  }

  // The bytes of a record that is begun and not finished when the end comes; n are there already.
  function Unfinished(es: seq<Event>, begun: bool, n: nat): nat {
    if es == [] then n
    else match es[0]
         case Eof => n
         case Bad(_, _) => Unfinished(es[1..], false, 0)
         case Frag(kind, payload, _) =>
           if kind == 5 then n
           else if kind == 2 then Unfinished(es[1..], true, |payload|)
           else if kind == 3 && begun then Unfinished(es[1..], true, n + |payload|)
           else Unfinished(es[1..], false, 0)
  }

  /** Reading from the start of a log, every byte met is returned in a record, reported as dropped, or part of a last
      record that is not finished.
   */
  lemma EveryByteIsAccountedFor(es: seq<Event>)
    ensures DataOf(Records(0, es, IDLE)) + Total(Reports(0, es, IDLE)) + Unfinished(es, false, 0) == Met(es)
  {
    Accounted(es, IDLE);
  }

  lemma {:induction false} Accounted(es: seq<Event>, a: Assembly)
    requires !a.resync && (!a.inFrag ==> a == IDLE)
    ensures DataOf(Records(0, es, a)) + Total(Reports(0, es, a)) + Unfinished(es, a.inFrag, |a.scratch|)
         == |a.scratch| + Met(es)
  {
    hide Step, Unfinished;
    StepKeeps(es, a);
    if es != [] {
      match Step(0, a, es[0])
      case Stop =>
      case Return(record, drops) =>
        Accounted(es[1..], IDLE);
        TotalAppend(drops, Reports(0, es[1..], IDLE));
        assert ([record] + Records(0, es[1..], IDLE))[1..] == Records(0, es[1..], IDLE);
      case Continue(b, drops) =>
        Accounted(es[1..], b);
        TotalAppend(drops, Reports(0, es[1..], b));
    }
  }

  // What one step of the reader does with the bytes it holds and those it meets.
  ghost predicate Keeps(es: seq<Event>, a: Assembly)
    requires es != []
  {
    match Step(0, a, es[0])
    case Stop => Met(es) == 0 && Unfinished(es, a.inFrag, |a.scratch|) == |a.scratch|
    case Return(record, drops) =>
      && Unfinished(es, a.inFrag, |a.scratch|) == Unfinished(es[1..], false, 0)
      && |record.data| + Total(drops) + Met(es[1..]) == |a.scratch| + Met(es)
    case Continue(b, drops) =>
      && !b.resync && (!b.inFrag ==> b == IDLE)
      && Unfinished(es, a.inFrag, |a.scratch|) == Unfinished(es[1..], b.inFrag, |b.scratch|)
      && |b.scratch| + Total(drops) + Met(es[1..]) == |a.scratch| + Met(es)
  }

  lemma StepKeeps(es: seq<Event>, a: Assembly)
    requires !a.resync && (!a.inFrag ==> a == IDLE)
    ensures es == [] ==> Unfinished(es, a.inFrag, |a.scratch|) == |a.scratch|
    ensures es != [] ==> Keeps(es, a)
  {
    hide Keeps;
    if es != [] {
      match es[0]
      case Eof => EofKeeps(es, a);
      case Bad(drops, _) => BadKeeps(es, a);
      case Frag(kind, _, _) =>
        if kind == 1 || kind == 4 {
          EndKeeps(es, a);
        } else {
          FragmentKeeps(es, a);
        }
    }
  }

  lemma EofKeeps(es: seq<Event>, a: Assembly)
    requires es != [] && es[0].Eof?
    ensures Keeps(es, a)
  {
  }

  lemma BadKeeps(es: seq<Event>, a: Assembly)
    requires es != [] && es[0].Bad? && !a.resync && (!a.inFrag ==> a == IDLE)
    ensures Keeps(es, a)
  {
    TotalAppend(es[0].drops, if a.inFrag then [|a.scratch|] else []);
  }

  lemma EndKeeps(es: seq<Event>, a: Assembly)
    requires es != [] && es[0].Frag? && (es[0].kind == 1 || es[0].kind == 4)
    requires !a.resync && (!a.inFrag ==> a == IDLE)
    ensures Keeps(es, a)
  {
  }

  lemma FragmentKeeps(es: seq<Event>, a: Assembly)
    requires es != [] && es[0].Frag? && es[0].kind != 1 && es[0].kind != 4
    requires !a.resync && (!a.inFrag ==> a == IDLE)
    ensures Keeps(es, a)
  {
  }

  /** A stretch that is rejected is reported with all the bytes to the end of its block, unless it is preallocated. */
  lemma RejectedIsReported(c: Config, p: nat, buffer: seq<byte>, last: bool)
    requires |buffer| >= 7 && Parse(c, 0, p, buffer, last).Bad?
    ensures Parse(c, 0, p, buffer, last)
         == Bad(if buffer[4] == 0 && buffer[5] == 0 && buffer[6] == 0 then [] else [|buffer|], p + |buffer|)
  {
  }

  // Otherwise only what lies at or after the place where reading was to start.
  lemma ReportedFrom(init: nat, pos: nat, bytes: nat)
    requires bytes <= pos < 0x1_0000_0000_0000_0000
    ensures Report(init, pos, bytes) == if init + bytes <= pos then [bytes] else []
  {
  }
}
