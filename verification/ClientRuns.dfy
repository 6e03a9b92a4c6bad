/**
 Any client, from the list of its messages alone: when its connection ends, which application and
 how many commands it has given, whether the stream under a key has its publisher and whether this
 client is it, and hence what of its media goes on the air.
 */
module ClientRuns {
  import opened Chunks
  import opened Amf0
  import opened Amf0Command
  import opened Commands
  import opened Clients

  type Messages = seq<(nat, Message)>

  /** The values of a command that decodes. */
  function Said(m: Message): seq<Value> {
    if m.kind == 20 && DecodeCommand(m.body, []).Values? then DecodeCommand(m.body, []).values else []
  }

  function CommandsIn(ms: Messages): nat
    decreases |ms|
  {
    if ms == [] then 0 else CommandsIn(ms[..|ms| - 1]) + if ms[|ms| - 1].1.kind == 20 then 1 else 0
  }

  /** What the last connect named. */
  function LastApp(ms: Messages): Str
    decreases |ms|
  {
    if ms == [] then []
    else if Named(Said(ms[|ms| - 1].1), CONNECT) then AppIn(Said(ms[|ms| - 1].1))
    else LastApp(ms[..|ms| - 1])
  }

  /** `m`, sent after `before`, is a publish of the stream under `key`. */
  predicate PublishesTo(before: Messages, m: Message, key: StreamKey) {
    && Named(Said(m), PUBLISH)
    && (LastApp(before), BareName(NameIn(Said(m)))) == key
  }

  ghost predicate Published(ms: Messages, key: StreamKey) {
    exists i :: 0 <= i < |ms| && PublishesTo(ms[..i], ms[i].1, key)
  }

  /** The last publish is one of the stream under `key`. */
  ghost predicate LastIsOurs(ms: Messages, key: StreamKey) {
    exists i :: 0 <= i < |ms| && PublishesTo(ms[..i], ms[i].1, key)
      && forall j :: i < j < |ms| ==> !Named(Said(ms[j].1), PUBLISH)
  }

  /** A publish the server carries out. */
  ghost predicate Effective(before: Messages, m: Message, key: StreamKey, w: World) {
    var k := CommandsIn(before);
    && BareName(NameIn(Said(m))) != [] && LastApp(before) != [] && w.allows(k)
    && if PublishesTo(before, m, key) then !Published(before, key) else w.others(k)
  }

  /** `m`, sent after `before`, ends the connection. */
  ghost predicate Quits(before: Messages, m: Message, key: StreamKey, w: World) {
    var vs, ok := Said(m), w.replies(CommandsIn(before));
    || (m.kind == 20 && DecodeCommand(m.body, []).Rejected?)
    || ((Named(vs, CONNECT) || Named(vs, CREATE_STREAM)) && (|vs| < 2 || !ok))
    || ((Named(vs, RELEASE_STREAM) || Named(vs, FC_PUBLISH)) && |vs| >= 2 && !ok)
    || Named(vs, DELETE_STREAM) || Named(vs, CLOSE_STREAM)
    || (Named(vs, PUBLISH) && (!Effective(before, m, key, w) || !ok))
  }

  ghost predicate Over(ms: Messages, key: StreamKey, w: World) {
    exists i :: 0 <= i < |ms| && Quits(ms[..i], ms[i].1, key, w)
  }

  // ----- one more message -------------------------------------------------------------------------

  lemma PublishedSnoc(ms: Messages, key: StreamKey)
    requires ms != []
    ensures var n := |ms| - 1;
      Published(ms, key) <==> Published(ms[..n], key) || PublishesTo(ms[..n], ms[n].1, key)
  {
    hide PublishesTo;
    var n := |ms| - 1;
    forall i | 0 <= i < n
      ensures ms[..n][..i] == ms[..i] && ms[..n][i] == ms[i]
    {
    }
    if Published(ms[..n], key) {
      var i :| 0 <= i < n && PublishesTo(ms[..n][..i], ms[..n][i].1, key);
      assert PublishesTo(ms[..i], ms[i].1, key);
    }
    if Published(ms, key) {
      var i :| 0 <= i < |ms| && PublishesTo(ms[..i], ms[i].1, key);
      if i < n { assert PublishesTo(ms[..n][..i], ms[..n][i].1, key); }
    }
  }

  lemma OverSnoc(ms: Messages, key: StreamKey, w: World)
    requires ms != []
    ensures var n := |ms| - 1; Over(ms, key, w) <==> Over(ms[..n], key, w) || Quits(ms[..n], ms[n].1, key, w)
  {
    hide Quits;
    var n := |ms| - 1;
    forall i | 0 <= i < n
      ensures ms[..n][..i] == ms[..i] && ms[..n][i] == ms[i]
    {
    }
    if Over(ms[..n], key, w) {
      var i :| 0 <= i < n && Quits(ms[..n][..i], ms[..n][i].1, key, w);
      assert Quits(ms[..i], ms[i].1, key, w);
    }
    if Over(ms, key, w) {
      var i :| 0 <= i < |ms| && Quits(ms[..i], ms[i].1, key, w);
      if i < n { assert Quits(ms[..n][..i], ms[..n][i].1, key, w); }
    }
  }

  lemma LastIsOursSnoc(ms: Messages, key: StreamKey)
    requires ms != []
    ensures var n := |ms| - 1;
      LastIsOurs(ms, key) <==>
      if Named(Said(ms[n].1), PUBLISH) then PublishesTo(ms[..n], ms[n].1, key) else LastIsOurs(ms[..n], key)
  {
    hide Said, LastApp, LastIsOurs;
    var n := |ms| - 1;
    assert forall i :: 0 <= i < n ==> ms[..n][..i] == ms[..i] && ms[..n][i] == ms[i];
    if Named(Said(ms[n].1), PUBLISH) {
      LastPublish(ms, key);
    } else {
      if LastIsOurs(ms[..n], key) { StaysLast(ms, key); }
      if LastIsOurs(ms, key) { WasLast(ms, key); }
    }
  }

  lemma LastPublish(ms: Messages, key: StreamKey)
    requires ms != [] && Named(Said(ms[|ms| - 1].1), PUBLISH)
    ensures LastIsOurs(ms, key) <==> PublishesTo(ms[..|ms| - 1], ms[|ms| - 1].1, key)
  {
    hide Said, LastApp, PublishesTo;
  }

  lemma StaysLast(ms: Messages, key: StreamKey)
    requires ms != [] && !Named(Said(ms[|ms| - 1].1), PUBLISH) && LastIsOurs(ms[..|ms| - 1], key)
    ensures LastIsOurs(ms, key)
  {
    hide Said, LastApp, PublishesTo;
    var n := |ms| - 1;
    var i :| 0 <= i < n && PublishesTo(ms[..n][..i], ms[..n][i].1, key)
      && forall j :: i < j < n ==> !Named(Said(ms[..n][j].1), PUBLISH);
    assert ms[..n][..i] == ms[..i];
    assert PublishesTo(ms[..i], ms[i].1, key);
    forall j | i < j < |ms| ensures !Named(Said(ms[j].1), PUBLISH) {
      if j < n { assert !Named(Said(ms[..n][j].1), PUBLISH); }
    }
  }

  lemma WasLast(ms: Messages, key: StreamKey)
    requires ms != [] && !Named(Said(ms[|ms| - 1].1), PUBLISH) && LastIsOurs(ms, key)
    ensures LastIsOurs(ms[..|ms| - 1], key)
  {
    hide Said, LastApp;
    var n := |ms| - 1;
    var i :| 0 <= i < |ms| && PublishesTo(ms[..i], ms[i].1, key)
      && forall j :: i < j < |ms| ==> !Named(Said(ms[j].1), PUBLISH);
    assert i < n && ms[..n][..i] == ms[..i];
    hide PublishesTo;
    assert PublishesTo(ms[..n][..i], ms[..n][i].1, key);
    forall j | i < j < n ensures !Named(Said(ms[..n][j].1), PUBLISH) {
    }
  }

  lemma {:induction false} LifeAfterSnoc(ms: Messages, last: (nat, Message), life: Life, key: StreamKey, w: World)
    ensures var v := LifeAfter(ms, life, key, w);
      LifeAfter(ms + [last], life, key, w) == if v.ended then v else Judge(v.life, last.1, key, w)
  {
    hide Judge;
    if ms == [] {
      assert (ms + [last])[1..] == [];
    } else {
      assert (ms + [last])[1..] == ms[1..] + [last];
      var v := Judge(life, ms[0].1, key, w);
      if !v.ended { LifeAfterSnoc(ms[1..], last, v.life, key, w); }
    }
  }

  // ----- what the list says of the session ---------------------------------------------------------

  /** The session is as the list of messages says. */
  ghost predicate Tells(ms: Messages, life: Life, key: StreamKey) {
    && life.app == LastApp(ms) && life.commands == CommandsIn(ms)
    && life.attached == Published(ms, key) && life.here == LastIsOurs(ms, key)
  }

  lemma JudgedAsTold(before: Messages, life: Life, m: Message, key: StreamKey, w: World)
    requires Tells(before, life, key)
    ensures var v := Judge(life, m, key, w);
      && (v.ended <==> Quits(before, m, key, w))
      && v.life.commands == life.commands + (if m.kind == 20 then 1 else 0)
      && (!v.ended ==>
            && v.life.app == (if Named(Said(m), CONNECT) then AppIn(Said(m)) else life.app)
            && v.life.attached == (life.attached || PublishesTo(before, m, key))
            && v.life.here == if Named(Said(m), PUBLISH) then PublishesTo(before, m, key) else life.here)
  {
    hide LastIsOurs, Published, LastApp, CommandsIn, DecodeCommand, JudgeCommand;
    if m.kind == 20 && DecodeCommand(m.body, []).Values? {
      var vs := Said(m);
      var next := life.(commands := life.commands + 1);
      if Named(vs, PUBLISH) {
        var query := SplitName(NameIn(vs));
        PublishCommand(next, vs, life.commands, key, w, BareName(NameIn(vs)), query);
      } else {
        OtherCommands(next, vs, life.commands, key, w);
      }
    }
  }

  /** The list tells when the connection ended, and until then how the session is. */
  ghost predicate Foretold(ms: Messages, v: Verdict, key: StreamKey, w: World) {
    (v.ended <==> Over(ms, key, w)) && (!v.ended ==> Tells(ms, v.life, key))
  }

  lemma OneMoreTold(front: Messages, last: (nat, Message), v: Verdict, key: StreamKey, w: World)
    requires Foretold(front, v, key, w)
    ensures Foretold(front + [last], if v.ended then v else Judge(v.life, last.1, key, w), key, w)
  {
    var ms := front + [last];
    assert ms[..|front|] == front && ms[|front|] == last;
    hide Judge, LastIsOurs, Published, Over, Quits, PublishesTo, Said;
    OverSnoc(ms, key, w);
    if !v.ended {
      PublishedSnoc(ms, key);
      LastIsOursSnoc(ms, key);
      JudgedAsTold(front, v.life, last.1, key, w);
    }
  }

  /** From the list alone: the connection has ended iff one of its messages ends it, and until then
      the publisher is this client iff its last publish named this key. */
  lemma {:induction false} LifeOfClient(ms: Messages, key: StreamKey, w: World)
    ensures var v := LifeAfter(ms, Life([], false, false, 0), key, w);
      && (v.ended <==> Over(ms, key, w))
      && (!v.ended ==> Tells(ms, v.life, key))
    decreases |ms|
  {
    var start := Life([], false, false, 0);
    if ms != [] {
      var n := |ms| - 1;
      LifeOfClient(ms[..n], key, w);
      assert ms == ms[..n] + [ms[n]];
      hide Judge, Over, Tells, LifeAfter;
      LifeAfterSnoc(ms[..n], ms[n], start, key, w);
      OneMoreTold(ms[..n], ms[n], LifeAfter(ms[..n], start, key, w), key, w);
    }
  }

  /** Publishing this key a second time ends the connection. */
  lemma PublishedTwiceIsOver(ms: Messages, key: StreamKey, w: World, i: nat, j: nat)
    requires i < j < |ms| && PublishesTo(ms[..i], ms[i].1, key) && PublishesTo(ms[..j], ms[j].1, key)
    ensures Over(ms, key, w)
  {
    assert Named(Said(ms[j].1), PUBLISH);
    hide PublishesTo, Said;
    assert ms[..j][..i] == ms[..i] && ms[..j][i] == ms[i];
    assert Published(ms[..j], key);
    assert Quits(ms[..j], ms[j].1, key, w);
  }

  /** What each message adds to what is on the air: its media, iff the connection has not ended
      before it and the last publish before it named this key. */
  lemma AirsNext(ms: Messages, last: (nat, Message), key: StreamKey, w: World)
    ensures var start := Life([], false, false, 0);
      Aired(ms + [last], start, key, w)
      == Aired(ms, start, key, w) + if !Over(ms, key, w) && LastIsOurs(ms, key) then Media(last.1) else []
  {
    hide Judge, Media, Over, LastIsOurs, Published;
    var start := Life([], false, false, 0);
    AiredConcat(ms, [last], start, key, w);
    LifeOfClient(ms, key, w);
    var v := LifeAfter(ms, start, key, w);
    if !v.ended {
      var j := Judge(v.life, last.1, key, w);
      assert [last][1..] == [] && Aired([], j.life, key, w) == [];
    }
  }
}
