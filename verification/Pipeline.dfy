/**
 From delivered messages to FLV: the keyframe gate and the timestamp rebase, in closed form over
 the whole sequence of messages a subscriber has read. A `None` stands for the nil a racing read
 can return from a slot that is claimed but not stored.
 */
module Pipeline {
  import opened Bits
  import opened Bytes
  import opened Storage
  import opened StreamBus
  import opened Flv

  type Message = Option<Content>

  predicate IsVideoKeyframe(payload: seq<Byte>) {
    |payload| >= 1 && payload[0] / 16 == 1
  }

  function TagTypeForMessage(m: Message): Option<Byte> {
    if m.None? then None
    else if m.value.kind == AUDIO then Some(TAG_AUDIO)
    else if m.value.kind == VIDEO then Some(TAG_VIDEO)
    else if m.value.kind == METADATA then Some(TAG_SCRIPT)
    else None
  }

  predicate Opens(m: Message) {
    m.Some? && !m.value.isInit && m.value.kind == VIDEO && IsVideoKeyframe(m.value.bytes)
  }

  /** Position of the first video keyframe, or the end. */
  function FirstKey(ms: seq<Message>): (k: nat)
    ensures k <= |ms| && (k < |ms| ==> Opens(ms[k]))
    ensures forall i :: 0 <= i < k ==> !Opens(ms[i])
  {
    if ms == [] || Opens(ms[0]) then 0 else 1 + FirstKey(ms[1..])
  }

  /** Codec configuration always; everything else from the keyframe on; unknown kinds never. */
  predicate Kept(ms: seq<Message>, i: nat)
    requires i < |ms|
  {
    TagTypeForMessage(ms[i]).Some? && (ms[i].value.isInit || FirstKey(ms) <= i)
  }

  function TagFor(ms: seq<Message>, i: nat): Tag
    requires i < |ms| && Kept(ms, i)
  {
    var m := ms[i].value;
    var stamp :=
      if m.isInit then 0
      else
        var base := ms[FirstKey(ms)].value.timestamp;
        if m.timestamp < base then 0 else m.timestamp - base;
    Tag(TagTypeForMessage(ms[i]).value, stamp, m.bytes)
  }

  /** Positions below `n` that reach the output. */
  function KeptBelow(ms: seq<Message>, n: nat): (ix: seq<nat>)
    requires n <= |ms|
    ensures forall j :: 0 <= j < |ix| ==> ix[j] < n && Kept(ms, ix[j])
  {
    if n == 0 then [] else KeptBelow(ms, n - 1) + if Kept(ms, n - 1) then [n - 1] else []
  }

  function Shown(ms: seq<Message>): seq<Tag> {
    var ix := KeptBelow(ms, |ms|);
    seq(|ix|, j requires 0 <= j < |ix| => TagFor(ms, ix[j]))
  }

  // ----- what the closed form says -----------------------------------------------------------------

  lemma {:induction false} KeptExactly(ms: seq<Message>, n: nat)
    requires n <= |ms|
    ensures forall i :: i in KeptBelow(ms, n) <==> 0 <= i < n && Kept(ms, i)
    ensures forall j, k :: 0 <= j < k < |KeptBelow(ms, n)| ==> KeptBelow(ms, n)[j] < KeptBelow(ms, n)[k]
  {
    hide Kept;
    if n > 0 { KeptExactly(ms, n - 1); }
  }

  /** The message kind an FLV tag type stands for (annex E.4.1). */
  function KindOf(tagType: Byte): Option<nat> {
    if tagType == 8 then Some(AUDIO)
    else if tagType == 9 then Some(VIDEO)
    else if tagType == 18 then Some(METADATA)
    else None
  }

  /** Every tag says its own message: kind, bytes, and a time of zero or relative to the keyframe. */
  lemma ShownSays(ms: seq<Message>, j: nat)
    requires j < |Shown(ms)|
    ensures var m, t := ms[KeptBelow(ms, |ms|)[j]].value, Shown(ms)[j];
            && KindOf(t.kind) == Some(m.kind) && t.data == m.bytes
            && (if m.isInit then t.timestamp == 0
                else FirstKey(ms) < |ms| && Opens(ms[FirstKey(ms)]) &&
                     var base := ms[FirstKey(ms)].value.timestamp;
                     t.timestamp + base == if base <= m.timestamp then m.timestamp else base)
  {
  }

  /** Timestamps keep their order among messages that are not codec configuration. */
  lemma OrderKept(ms: seq<Message>, j: nat, k: nat)
    requires j < k < |Shown(ms)|
    ensures var ix := KeptBelow(ms, |ms|);
            var a, b := ms[ix[j]].value, ms[ix[k]].value;
            ix[j] < ix[k] && (!a.isInit && !b.isInit && a.timestamp <= b.timestamp ==>
              Shown(ms)[j].timestamp <= Shown(ms)[k].timestamp)
  {
    KeptExactly(ms, |ms|);
  }

  /** What plays starts at zero: the opening keyframe is shown, at time zero, and every tag shown
      before it is codec configuration at time zero. */
  lemma StartsAtZero(ms: seq<Message>) returns (at: nat)
    requires FirstKey(ms) < |ms|
    ensures at < |Shown(ms)| && KeptBelow(ms, |ms|)[at] == FirstKey(ms) && Shown(ms)[at].kind == TAG_VIDEO
    ensures forall j :: 0 <= j <= at ==> Shown(ms)[j].timestamp == 0
    ensures forall j :: 0 <= j < at ==> ms[KeptBelow(ms, |ms|)[j]].value.isInit
  {
    var k := FirstKey(ms);
    KeptExactly(ms, |ms|);
    assert Kept(ms, k);
    at :| 0 <= at < |KeptBelow(ms, |ms|)| && KeptBelow(ms, |ms|)[at] == k;
  }

  // ----- one more message ------------------------------------------------------------------------------

  /** Where the gate opens is settled once it has opened. */
  lemma {:induction false} KeySnoc(ms: seq<Message>, m: Message)
    ensures FirstKey(ms + [m]) == if FirstKey(ms) < |ms| || Opens(m) then FirstKey(ms) else |ms| + 1
  {
    var k, k' := FirstKey(ms), FirstKey(ms + [m]);
    assert forall i :: 0 <= i < |ms| ==> (ms + [m])[i] == ms[i];
    assert (ms + [m])[|ms|] == m;
    if k < |ms| {
      assert Opens((ms + [m])[k]);
    }
  }

  lemma {:induction false} KeptSnoc(ms: seq<Message>, m: Message, n: nat)
    requires n <= |ms|
    ensures KeptBelow(ms + [m], n) == KeptBelow(ms, n)
  {
    KeySnoc(ms, m);
    if n > 0 { KeptSnoc(ms, m, n - 1); }
  }

  lemma ShownSnoc(ms: seq<Message>, m: Message)
    ensures var all := ms + [m];
            Shown(all) == Shown(ms) + if Kept(all, |ms|) then [TagFor(all, |ms|)] else []
  {
    var all := ms + [m];
    KeySnoc(ms, m);
    KeptSnoc(ms, m, |ms|);
    var ix := KeptBelow(ms, |ms|);
    assert KeptBelow(all, |all|) == ix + if Kept(all, |ms|) then [|ms|] else [];
    forall j | 0 <= j < |ix| ensures TagFor(all, ix[j]) == TagFor(ms, ix[j]) {
      assert all[ix[j]] == ms[ix[j]];
    }
  }

  // ----- writers that may give up ---------------------------------------------------------------------

  function Take<T>(s: seq<T>, n: nat): seq<T> {
    if n < |s| then s[..n] else s
  }

  lemma TakeMore<T>(s: seq<T>, more: seq<T>, n: nat)
    ensures |Take(s, n)| <= n && Take(Take(s, n) + more, n) == Take(s + more, n)
    ensures more != [] ==> (|Take(s, n) + more| <= n <==> |s + more| <= n)
  {
  }

  /** A cut that has happened is not moved by what would have come after. */
  lemma TakePrefix<T>(s: seq<T>, t: seq<T>, n: nat)
    requires s <= t && |s| > n
    ensures |t| > n && Take(s, n) == Take(t, n)
  {
  }

  /** More messages only ever add tags at the end. */
  lemma {:induction false} ShownGrows(ms: seq<Message>, more: seq<Message>)
    ensures Shown(ms) <= Shown(ms + more)
    decreases |more|
  {
    hide Shown;
    if more == [] {
      assert ms + more == ms;
    } else {
      var init, m := more[..|more| - 1], more[|more| - 1];
      assert ms + more == (ms + init) + [m];
      ShownGrows(ms, init);
      ShownSnoc(ms + init, m);
    }
  }

  lemma {:induction false} BytesGrow(tags: seq<Tag>, more: seq<Tag>)
    ensures TagsBytes(tags + more) == TagsBytes(tags) + TagsBytes(more)
  {
    hide TagBytes;
    if tags == [] {
      assert tags + more == more;
    } else {
      assert (tags + more)[1..] == tags[1..] + more;
      BytesGrow(tags[1..], more);
    }
  }

  function Concat(frames: seq<seq<Byte>>): seq<Byte> {
    if frames == [] then [] else frames[0] + Concat(frames[1..])
  }

  function Frames(tags: seq<Tag>): seq<seq<Byte>> {
    seq(|tags|, i requires 0 <= i < |tags| => TagBytes(tags[i]))
  }

  lemma {:induction false} ConcatFrames(tags: seq<Tag>)
    ensures Concat(Frames(tags)) == TagsBytes(tags)
  {
    hide TagBytes;
    if tags == [] {
    } else {
      assert Frames(tags)[1..] == Frames(tags[1..]);
      ConcatFrames(tags[1..]);
    }
  }

  lemma {:induction false} ConcatAppend(a: seq<seq<Byte>>, b: seq<seq<Byte>>)
    ensures Concat(a + b) == Concat(a) + Concat(b)
  {
    if a == [] {
      assert a + b == b;
    } else {
      assert (a + b)[1..] == a[1..] + b;
      ConcatAppend(a[1..], b);
    }
  }

  // ----- the subscriber's three fields against the closed form ---------------------------------------

  /** The gate and the rebase offset say what the messages read so far say. */
  ghost predicate Gated(ms: seq<Message>, gotKeyframe: bool, tsOffset: nat) {
    var k := FirstKey(ms);
    && gotKeyframe == (k < |ms|)
    && (gotKeyframe ==> tsOffset == ms[k].value.timestamp)
    && (forall i :: 0 <= i < k ==> ms[i].Some?)
  }

  /** A message behind the gate, or of an unknown kind, or nil once the gate is open. */
  lemma PassesOver(ms: seq<Message>, m: Message, got: bool, base: nat)
    requires Gated(ms, got, base)
    requires if got then TagTypeForMessage(m).None?
             else m.Some? && !Opens(m) && (m.value.isInit ==> TagTypeForMessage(m).None?)
    ensures Gated(ms + [m], got, base) && Shown(ms + [m]) == Shown(ms)
  {
    KeySnoc(ms, m);
    ShownSnoc(ms, m);
  }

  function Stamp(m: Content, base: nat): nat {
    if m.isInit || m.timestamp < base then 0 else m.timestamp - base
  }

  /** A message that is shown. */
  lemma Passes(ms: seq<Message>, m: Message, got: bool, base: nat, base': nat)
    requires Gated(ms, got, base) && TagTypeForMessage(m).Some?
    requires m.value.isInit || got || Opens(m)
    requires base' == if !m.value.isInit && !got then m.value.timestamp else base
    ensures Gated(ms + [m], got || Opens(m), base')
    ensures Shown(ms + [m]) == Shown(ms) + [Tag(TagTypeForMessage(m).value, Stamp(m.value, base'), m.value.bytes)]
  {
    KeySnoc(ms, m);
    ShownSnoc(ms, m);
  }
}
