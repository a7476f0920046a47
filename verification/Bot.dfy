/** The messaging bot: polling, deduplication by update id, and when a reply goes out. */
module Bot {
  import opened Books

  /** An update as delivered.  `username` says whether the sender has a user name as well. */
  datatype Update = Update(id: Option<nat>, chat: bool, username: bool)

  /** The external ids under which incoming messages are recorded; at most one message holds each. */
  datatype Key = ById(id: nat) | ByName(of: Option<nat>)

  function KeysOf(u: Update): set<Key> {
    if u.id.Some? then {ById(u.id.value)} else {}
  }

  /** What the database and the messenger keep: recorded ids, and (for the proofs) the replies sent. */
  datatype Memory = Memory(incoming: set<Key>, sent: seq<Option<nat>>)

  // ------------------------------------------------------------------ one poller, one round

  /** What processing one update does when nothing interferes: an update already recorded is ignored, any
      other is recorded and answered; and when the reply has in it the words for not being registered, which
      `answered` denies, a sender with a user name is looked up under that name as well. */
  function Processed(mem: Memory, u: Update, answered: Update -> bool): Memory {
    if !u.chat || KeysOf(u) * mem.incoming != {} then mem
    else
      var again := if !answered(u) && u.username then {ByName(u.id)} else {};
      Memory(mem.incoming + KeysOf(u) + again, mem.sent + [u.id])
  }

  function Round(mem: Memory, us: seq<Update>, answered: Update -> bool): Memory {
    if us == [] then mem else Processed(Round(mem, us[..|us| - 1], answered), us[|us| - 1], answered)
  }

  function IdOf(u: Update): nat {
    if u.id.Some? then u.id.value else 0
  }

  class Poller {
    var incoming: set<Key>
    var lastUpdateId: int
    ghost var sent: seq<Option<nat>>

    ghost function Mem(): Memory
      reads this
    {
      Memory(incoming, sent)
    }

    /** Records a message unless one with its external id is already there. */
    method HandleIncoming(keys: set<Key>) returns (answer: bool)
      modifies this`incoming
      ensures answer <==> keys * old(incoming) == {}
      ensures incoming == if answer then old(incoming) + keys else old(incoming)
    {
      answer := keys * incoming == {};
      if answer {
        incoming := incoming + keys;
      }
    }

    method ProcessUpdate(u: Update, answered: Update -> bool)
      modifies this`incoming, this`sent
      ensures Mem() == Processed(old(Mem()), u, answered)
    {
      if !u.chat {
        return;
      }
      var answer := HandleIncoming(KeysOf(u));
      if answer && !answered(u) && u.username {
        var _ := HandleIncoming({ByName(u.id)});
      }
      if answer {
        sent := sent + [u.id];
      }
    }

    /** One round: every update is processed in order, and the greatest id seen is saved. */
    method Tick(updates: seq<Update>, answered: Update -> bool)
      modifies this
      ensures Mem() == Round(old(Mem()), updates, answered)
      ensures lastUpdateId >= old(lastUpdateId)
      ensures forall u :: u in updates && u.id.Some? ==> u.id.value <= lastUpdateId
      ensures lastUpdateId == old(lastUpdateId)
        || (exists u :: u in updates && u.id.Some? && u.id.value == lastUpdateId)
        || (lastUpdateId == 0 && exists u :: u in updates && u.id.None?)
    {
      var highest := lastUpdateId;
      for i := 0 to |updates|
        invariant Mem() == Round(old(Mem()), updates[..i], answered) && lastUpdateId == old(lastUpdateId)
        invariant highest >= lastUpdateId && forall j :: 0 <= j < i ==> IdOf(updates[j]) <= highest
        invariant highest == lastUpdateId || exists j :: 0 <= j < i && IdOf(updates[j]) == highest
      {
        var u := updates[i];
        assert updates[..i + 1][..i] == updates[..i];
        if IdOf(u) > highest {
          highest := IdOf(u);
        }
        ProcessUpdate(u, answered);
      }
      assert updates[..|updates|] == updates;
      if highest != lastUpdateId {
        lastUpdateId := highest;
      }
    }
  }

  lemma {:induction false} RoundRecords(mem: Memory, us: seq<Update>, answered: Update -> bool)
    ensures mem.incoming <= Round(mem, us, answered).incoming
    ensures forall u :: u in us && u.chat ==> KeysOf(u) <= Round(mem, us, answered).incoming
  {
    if us == [] {
    } else {
      RoundRecords(mem, us[..|us| - 1], answered);
    }
  }

  lemma {:induction false} NothingNew(mem: Memory, us: seq<Update>, answered: Update -> bool)
    requires forall u :: u in us && u.chat ==> u.id.Some? && KeysOf(u) <= mem.incoming
    ensures Round(mem, us, answered) == mem
  {
    if us == [] {
    } else {
      NothingNew(mem, us[..|us| - 1], answered);
      var u := us[|us| - 1];
      assert u.chat ==> ById(u.id.value) in KeysOf(u) * mem.incoming;
    }
  }

  /** Delivering the same updates again answers none of them a second time. */
  lemma RedeliveryIsSilent(mem: Memory, us: seq<Update>, answered: Update -> bool, answered': Update -> bool)
    requires forall u :: u in us && u.chat ==> u.id.Some?
    ensures Round(Round(mem, us, answered), us, answered') == Round(mem, us, answered)
  {
    RoundRecords(mem, us, answered);
    NothingNew(Round(mem, us, answered), us, answered');
  }

  /** A new message is tried under the sender's name too exactly when the sender has one and the reply was no answer. */
  lemma NameTried(mem: Memory, u: Update, answered: Update -> bool)
    requires u.chat && (u.id.Some? ==> ById(u.id.value) !in mem.incoming)
    ensures ByName(u.id) in Processed(mem, u, answered).incoming <==>
      ByName(u.id) in mem.incoming || (u.username && !answered(u))
  {
    assert KeysOf(u) * mem.incoming == {};
  }

  /** How often a reply went out to updates of this id, or to those without one. */
  function Replies(sent: seq<Option<nat>>, id: Option<nat>): nat {
    if sent == [] then 0 else Replies(sent[..|sent| - 1], id) + if sent[|sent| - 1] == id then 1 else 0
  }

  /** A message with this id is among the updates. */
  ghost predicate Delivered(us: seq<Update>, id: nat) {
    exists u :: u in us && u.chat && u.id == Some(id)
  }

  function Nameless(us: seq<Update>): nat {
    if us == [] then 0 else Nameless(us[..|us| - 1]) + if us[|us| - 1].chat && us[|us| - 1].id.None? then 1 else 0
  }

  /** A round answers every message not recorded before exactly once, however often it is delivered, one recorded
      before not at all, and one without an id each time; what is no message is never answered. */
  lemma {:induction false} AnsweredOnce(mem: Memory, us: seq<Update>, answered: Update -> bool, id: nat)
    ensures var mem' := Round(mem, us, answered);
      && (ById(id) in mem'.incoming <==> ById(id) in mem.incoming || Delivered(us, id))
      && Replies(mem'.sent, Some(id)) == Replies(mem.sent, Some(id))
           + (if Delivered(us, id) && ById(id) !in mem.incoming then 1 else 0)
      && Replies(mem'.sent, None) == Replies(mem.sent, None) + Nameless(us)
  {
    if us == [] {
    } else {
      var init, u := us[..|us| - 1], us[|us| - 1];
      assert us == init + [u];
      AnsweredOnce(mem, init, answered, id);
      var before := Round(mem, init, answered);
      assert Delivered(us, id) <==> Delivered(init, id) || (u.chat && u.id == Some(id)) by {
        if u.chat && u.id == Some(id) {
          assert u in us;
        }
      }
      assert (before.sent + [u.id])[..|before.sent|] == before.sent;
      assert KeysOf(u) * before.incoming != {} <==> u.id.Some? && ById(u.id.value) in before.incoming by {
        if u.id.Some? && ById(u.id.value) in before.incoming {
          assert ById(u.id.value) in KeysOf(u) * before.incoming;
        }
      }
    }
  }

  // ------------------------------------------------------------------ several pollers, crashes, redelivery

  /** Where a poller stands with the update it is working on. */
  datatype Point =
    | Looking
    | Recording(u: Update)
    | LookingUpName(u: Update)
    | RecordingName(u: Update)
    | Answering(u: Update)

  datatype Process = Idle | Busy(base: int, highest: int, pending: seq<Update>, at: Point)

  datatype System = System(mem: Memory, last: int, pollers: seq<Process>)

  datatype Action =
    | Fetch(p: nat, updates: seq<Update>)
    | Take(p: nat)
    | Record(p: nat, answered: bool)
    | LookUpName(p: nat)
    | RecordName(p: nat)
    | Send(p: nat)
    | Fail(p: nat)
    | Crash(p: nat)
    | Save(p: nat)

  function Start(n: nat): System {
    System(Memory({}, []), 0, seq(n, _ => Idle))
  }

  function Poll(s: System, p: nat, at: Process): System
    requires p < |s.pollers|
  {
    s.(pollers := s.pollers[p := at])
  }

  /** One step of one poller; a step that is not due leaves everything as it is.  Each step touches the
      database at most once, and the unique constraint makes recording an id that is there fail. */
  function Act(s: System, a: Action): System {
    if a.p >= |s.pollers| then s
    else if a.Crash? then Poll(s, a.p, Idle)
    else if s.pollers[a.p].Busy? then Work(s, a)
    else if a.Fetch? then Poll(s, a.p, Busy(s.last, s.last, a.updates, Looking))
    else s
  }

  function Work(s: System, a: Action): System
    requires a.p < |s.pollers| && s.pollers[a.p].Busy?
  {
    var x := s.pollers[a.p];
    match a
    case Take(p) => if x.at.Looking? && x.pending != [] then Taken(s, p) else s
    case Record(p, answered) => if x.at.Recording? then Recorded(s, p, answered) else s
    case LookUpName(p) =>
      if !x.at.LookingUpName? then s
      else
        Poll(s, p, x.(at := if ByName(x.at.u.id) in s.mem.incoming then Answering(x.at.u) else RecordingName(x.at.u)))
    case RecordName(p) =>
      if !x.at.RecordingName? then s
      else if ByName(x.at.u.id) in s.mem.incoming then Poll(s, p, x.(at := Looking))
      else
        Poll(s, p, x.(at := Answering(x.at.u))).(mem := s.mem.(incoming := s.mem.incoming + {ByName(x.at.u.id)}))
    case Send(p) =>
      if !x.at.Answering? then s
      else Poll(s, p, x.(at := Looking)).(mem := s.mem.(sent := s.mem.sent + [x.at.u.id]))
    case Fail(p) => Poll(s, p, x.(at := Looking))
    case Save(p) =>
      if !x.at.Looking? || x.pending != [] then s
      else Poll(s, p, Idle).(last := if x.highest != x.base then x.highest else s.last)
    case Fetch(_, _) => s
    case Crash(_) => s
  }

  /** The next update is looked up: one without a chat, or recorded already, is passed over. */
  function Taken(s: System, p: nat): System
    requires p < |s.pollers| && s.pollers[p].Busy? && s.pollers[p].pending != []
  {
    var x := s.pollers[p];
    var u := x.pending[0];
    var at := if !u.chat || KeysOf(u) * s.mem.incoming != {} then Looking else Recording(u);
    Poll(s, p, Busy(x.base, if IdOf(u) > x.highest then IdOf(u) else x.highest, x.pending[1..], at))
  }

  function Recorded(s: System, p: nat, answered: bool): System
    requires p < |s.pollers| && s.pollers[p].Busy? && s.pollers[p].at.Recording?
  {
    var x := s.pollers[p];
    var u := x.at.u;
    if KeysOf(u) * s.mem.incoming != {} then Poll(s, p, x.(at := Looking))
    else
      var at := if !answered && u.username then LookingUpName(u) else Answering(u);
      Poll(s, p, x.(at := at)).(mem := s.mem.(incoming := s.mem.incoming + KeysOf(u)))
  }

  /** With nothing in between, the steps for one update do what a poller's round does for it. */
  lemma UndisturbedUpdate(s: System, p: nat, answered: Update -> bool)
    requires p < |s.pollers| && s.pollers[p].Busy? && s.pollers[p].at.Looking? && s.pollers[p].pending != []
    ensures var u := s.pollers[p].pending[0];
      var s' := Act(Act(Act(Act(Act(s, Take(p)), Record(p, answered(u))), LookUpName(p)), RecordName(p)), Send(p));
      s'.mem == Processed(s.mem, u, answered)
  {
    var u := s.pollers[p].pending[0];
    var s1 := Act(s, Take(p));
    var s2 := Act(s1, Record(p, answered(u)));
    var s3 := Act(s2, LookUpName(p));
    var s4 := Act(s3, RecordName(p));
    var s5 := Act(s4, Send(p));
    assert s1.pollers[p].Busy? && s2.pollers[p].Busy? && s3.pollers[p].Busy? && s4.pollers[p].Busy?;
    if u.chat && KeysOf(u) * s.mem.incoming == {} && !answered(u) && u.username && ByName(u.id) in s2.mem.incoming {
      assert s5.mem.incoming == s2.mem.incoming + {ByName(u.id)};
    }
  }

  function After(n: nat, actions: seq<Action>): System {
    if actions == [] then Start(n) else Act(After(n, actions[..|actions| - 1]), actions[|actions| - 1])
  }

  /** The poller has recorded update `id` and may still answer it. */
  ghost predicate Owes(x: Process, id: nat) {
    x.Busy? && (x.at.LookingUpName? || x.at.RecordingName? || x.at.Answering?) && x.at.u.id == Some(id)
  }

  ghost predicate Once(s: System) {
    && (forall i, j :: 0 <= i < j < |s.mem.sent| && s.mem.sent[i].Some? ==> s.mem.sent[i] != s.mem.sent[j])
    && (forall i :: 0 <= i < |s.mem.sent| && s.mem.sent[i].Some? ==> ById(s.mem.sent[i].value) in s.mem.incoming)
    && (forall p, id: nat :: 0 <= p < |s.pollers| && Owes(s.pollers[p], id) ==>
        ById(id) in s.mem.incoming && Some(id) !in s.mem.sent)
    && (forall p, q, id: nat :: 0 <= p < q < |s.pollers| && Owes(s.pollers[p], id) ==> !Owes(s.pollers[q], id))
  }

  /** One poller moves on, and ids may have been recorded: it owes what it owed before, or what it was the
      first to record. */
  lemma OnceMoved(s: System, s': System, p: nat)
    requires Once(s) && p < |s.pollers| && |s'.pollers| == |s.pollers|
    requires forall q :: 0 <= q < |s.pollers| && q != p ==> s'.pollers[q] == s.pollers[q]
    requires s'.mem.sent == s.mem.sent && s.mem.incoming <= s'.mem.incoming
    requires forall id: nat :: Owes(s'.pollers[p], id) ==>
      Owes(s.pollers[p], id) || (ById(id) !in s.mem.incoming && ById(id) in s'.mem.incoming)
    ensures Once(s')
  {
  }

  lemma OnceSent(s: System, p: nat)
    requires Once(s) && p < |s.pollers| && s.pollers[p].Busy? && s.pollers[p].at.Answering?
    ensures Once(Act(s, Send(p)))
  {
    var id := s.pollers[p].at.u.id;
    assert id.Some? ==> Owes(s.pollers[p], id.value);
  }

  lemma RecordedOwes(s: System, p: nat, answered: bool)
    requires p < |s.pollers| && s.pollers[p].Busy? && s.pollers[p].at.Recording?
    ensures var s' := Recorded(s, p, answered);
      forall id: nat :: Owes(s'.pollers[p], id) ==> ById(id) !in s.mem.incoming && ById(id) in s'.mem.incoming
  {
    var u := s.pollers[p].at.u;
    assert u.id.Some? && ById(u.id.value) in s.mem.incoming ==> ById(u.id.value) in KeysOf(u) * s.mem.incoming;
  }

  lemma OnceStep(s: System, a: Action)
    requires Once(s)
    ensures Once(Act(s, a)) && |Act(s, a).pollers| == |s.pollers|
  {
    hide Once, Recorded;
    if a.p < |s.pollers| && Act(s, a) != s {
      if a.Send? {
        OnceSent(s, a.p);
      } else {
        if a.Record? && s.pollers[a.p].Busy? {
          RecordedOwes(s, a.p, a.answered);
          RecordedFrame(s, a.p, a.answered);
        }
        OnceMoved(s, Act(s, a), a.p);
      }
    }
  }

  lemma RecordedFrame(s: System, p: nat, answered: bool)
    requires p < |s.pollers| && s.pollers[p].Busy? && s.pollers[p].at.Recording?
    ensures var s' := Recorded(s, p, answered);
      && |s'.pollers| == |s.pollers| && s'.mem.sent == s.mem.sent && s.mem.incoming <= s'.mem.incoming
      && forall q :: 0 <= q < |s.pollers| && q != p ==> s'.pollers[q] == s.pollers[q]
  {
  }

  /** Whatever is delivered again, wherever a poller crashes or fails, and however many of them run side
      by side: no update id is answered twice, and only recorded ones are answered. */
  lemma {:induction false} AtMostOneReply(n: nat, actions: seq<Action>)
    ensures Once(After(n, actions)) && |After(n, actions).pollers| == n
  {
    hide Act;
    if actions == [] {
    } else {
      AtMostOneReply(n, actions[..|actions| - 1]);
      OnceStep(After(n, actions[..|actions| - 1]), actions[|actions| - 1]);
    }
  }

  /** The only poller there is holds the saved id as it read it, or a greater one. */
  ghost predicate Alone(s: System) {
    |s.pollers| == 1 && (s.pollers[0].Busy? ==> s.pollers[0].base == s.last && s.pollers[0].highest >= s.last)
  }

  lemma AloneStep(s: System, a: Action)
    requires Alone(s)
    ensures Alone(Act(s, a)) && Act(s, a).last >= s.last
  {
  }

  /** With one poller the saved id never goes back. */
  lemma {:induction false} LastIdGrows(actions: seq<Action>, a: Action)
    ensures var s := After(1, actions);
      Alone(s) && Act(s, a).last >= s.last
  {
    hide Act, Alone;
    if actions == [] {
      StartsAlone();
    } else {
      LastIdGrows(actions[..|actions| - 1], actions[|actions| - 1]);
      AloneStep(After(1, actions[..|actions| - 1]), actions[|actions| - 1]);
    }
    AloneStep(After(1, actions), a);
  }

  lemma StartsAlone()
    ensures Alone(Start(1))
  {
  }

  /** With two it can: the slower one saves the smaller id it read. */
  lemma TwoPollersCanGoBack()
    ensures exists actions, a :: Act(After(2, actions), a).last < After(2, actions).last
  {
    var five, six := Update(Some(5), false, false), Update(Some(6), false, false);
    var s0 := After(2, []);
    var s1 := Extend(2, [], Fetch(0, [five]));
    var s2 := Extend(2, s1, Fetch(1, [five, six]));
    var s3 := Extend(2, s2, Take(1));
    var s4 := Extend(2, s3, Take(1));
    var s5 := Extend(2, s4, Save(1));
    var s6 := Extend(2, s5, Take(0));
    assert After(2, s5).last == 6;
    assert Act(After(2, s6), Save(0)).last == 5;
  }

  lemma Extend(n: nat, actions: seq<Action>, a: Action) returns (longer: seq<Action>)
    ensures longer == actions + [a]
    ensures After(n, longer) == Act(After(n, actions), a)
  {
    longer := actions + [a];
    assert longer[..|actions|] == actions;
  }
}
