/**
 The same cache when nothing keeps reads and edits apart: a read of the tables and the `setex` that
 stores its answer are separate steps, edits may fall between them, and invalidations may fail.
 */
module CacheStaleness {
  import opened Common
  import opened OrderLines
  import opened MappingCache

  datatype FillId = FillId(n: nat)

  /** A reader that has asked the tables and has not stored the answer yet. */
  datatype Fill = Fill(key: Key, value: Value, readAt: int)

  /** A cache entry; `readAt`, when its value was read, is history. */
  datatype Stored = Stored(value: Value, readAt: int, expiry: int)

  /** The tables as they were from `since` on. */
  datatype Version = Version(since: int, tables: Tables)

  datatype State = State(now: int, versions: seq<Version>, cache: map<Key, Stored>, fills: map<FillId, Fill>)

  datatype Event =
    | Tick(seconds: nat)
    | Edit(tables: Tables)
    | BeginFill(id: FillId, key: Key)
    | EndFill(id: FillId)
    | AbandonFill(id: FillId)
    | Invalidate(key: Key)

  function Init(start: int, tables: Tables): State {
    State.State(start, [Version(start, tables)], map[], map[])
  }

  ghost function Current(s: State): Tables
    requires s.versions != []
  {
    s.versions[|s.versions| - 1].tables
  }

  predicate Served(s: State, key: Key) {
    key in s.cache && s.now < s.cache[key].expiry
  }

  ghost function Step(s: State, e: Event): State {
    match e
    case Tick(seconds) => s.(now := s.now + seconds)
    case Edit(tables) => s.(versions := s.versions + [Version(s.now, tables)])
    case BeginFill(id, key) =>
      if id in s.fills || s.versions == [] || Answer(Current(s), key).None? then s
      else s.(fills := s.fills[id := Fill(key, Answer(Current(s), key).value, s.now)])
    case EndFill(id) =>
      if id !in s.fills then s
      else
        var f := s.fills[id];
        s.(cache := s.cache[f.key := Stored(f.value, f.readAt, s.now + CACHE_TTL)], fills := Without(s.fills, id))
    case AbandonFill(id) => s.(fills := Without(s.fills, id))
    case Invalidate(key) => s.(cache := Without(s.cache, key))
  }

  ghost function Run(s: State, events: seq<Event>): State
    decreases |events|
  {
    if events == [] then s else Run(Step(s, events[0]), events[1..])
  }

  /** Every fill of the run stores its answer at most `delay` after it read it. */
  ghost predicate Prompt(s: State, events: seq<Event>, delay: int)
    decreases |events|
  {
    events == [] ||
    ((events[0].EndFill? && events[0].id in s.fills ==> s.now <= s.fills[events[0].id].readAt + delay) &&
     Prompt(Step(s, events[0]), events[1..], delay))
  }

  predicate IsCurrentAt(versions: seq<Version>, i: nat, time: int)
    requires i < |versions|
  {
    versions[i].since <= time && (i + 1 < |versions| ==> time <= versions[i + 1].since)
  }

  /** At `time` the tables answered `value` for `key`. */
  ghost predicate WasAnswer(versions: seq<Version>, key: Key, value: Value, time: int) {
    exists i :: 0 <= i < |versions| && IsCurrentAt(versions, i, time) && Answer(versions[i].tables, key) == Some(value)
  }

  ghost predicate Inv(s: State, delay: int) {
    && s.versions != [] && s.versions[|s.versions| - 1].since <= s.now
    && (forall id :: id in s.fills ==>
          var f := s.fills[id]; f.readAt <= s.now && WasAnswer(s.versions, f.key, f.value, f.readAt))
    && (forall key :: key in s.cache ==>
          var e := s.cache[key];
          e.readAt <= s.now && e.expiry <= e.readAt + delay + CACHE_TTL && WasAnswer(s.versions, key, e.value, e.readAt))
  }

  lemma EditKeepsAnswer(versions: seq<Version>, v: Version, key: Key, value: Value, time: int)
    requires WasAnswer(versions, key, value, time) && time <= v.since
    ensures WasAnswer(versions + [v], key, value, time)
  {
    var i :| 0 <= i < |versions| && IsCurrentAt(versions, i, time) && Answer(versions[i].tables, key) == Some(value);
    assert (versions + [v])[i] == versions[i] && IsCurrentAt(versions + [v], i, time);
  }

  lemma EditKeepsInv(s: State, tables: Tables, delay: int)
    requires Inv(s, delay)
    ensures Inv(Step(s, Edit(tables)), delay)
  {
    var v := Version(s.now, tables);
    forall id | id in s.fills
      ensures WasAnswer(s.versions + [v], s.fills[id].key, s.fills[id].value, s.fills[id].readAt)
    {
      EditKeepsAnswer(s.versions, v, s.fills[id].key, s.fills[id].value, s.fills[id].readAt);
    }
    forall key | key in s.cache
      ensures WasAnswer(s.versions + [v], key, s.cache[key].value, s.cache[key].readAt)
    {
      EditKeepsAnswer(s.versions, v, key, s.cache[key].value, s.cache[key].readAt);
    }
  }

  lemma BeginKeepsInv(s: State, id: FillId, key: Key, delay: int)
    requires Inv(s, delay)
    ensures Inv(Step(s, BeginFill(id, key)), delay)
  {
    assert IsCurrentAt(s.versions, |s.versions| - 1, s.now);
  }

  lemma EndKeepsInv(s: State, id: FillId, delay: int)
    requires Inv(s, delay) && (id in s.fills ==> s.now <= s.fills[id].readAt + delay)
    ensures Inv(Step(s, EndFill(id)), delay)
  {
  }

  lemma StepKeepsInv(s: State, e: Event, delay: int)
    requires Inv(s, delay) && Prompt(s, [e], delay)
    ensures Inv(Step(s, e), delay)
  {
    match e
    case Edit(tables) => EditKeepsInv(s, tables, delay);
    case BeginFill(id, key) => BeginKeepsInv(s, id, key, delay);
    case EndFill(id) =>
      assert [e][0] == e;
      EndKeepsInv(s, id, delay);
    case _ =>
  }

  lemma PromptHead(s: State, events: seq<Event>, delay: int)
    requires events != [] && Prompt(s, events, delay)
    ensures Prompt(s, [events[0]], delay)
  {
    assert [events[0]][1..] == [];
    assert Prompt(Step(s, events[0]), [], delay);
  }

  lemma {:induction false} RunKeepsInv(s: State, events: seq<Event>, delay: int)
    requires Inv(s, delay) && Prompt(s, events, delay)
    ensures Inv(Run(s, events), delay)
    decreases |events|
  {
    if events != [] {
      PromptHead(s, events, delay);
      StepKeepsInv(s, events[0], delay);
      RunKeepsInv(Step(s, events[0]), events[1..], delay);
    }
  }

  /**
   Bounded staleness: whatever edits fell between, and whether or not any invalidation succeeded, a value
   served from the cache was the tables' answer at some moment within the cache lifetime plus the longest
   fill delay; and so was the answer of a read that is still to be stored.
   */
  lemma StalenessIsBounded(tables: Tables, start: int, events: seq<Event>, delay: int, key: Key)
    requires Prompt(Init(start, tables), events, delay)
    ensures var s := Run(Init(start, tables), events);
            && (Served(s, key) ==>
                  var e := s.cache[key];
                  s.now - (CACHE_TTL + delay) < e.readAt <= s.now && WasAnswer(s.versions, key, e.value, e.readAt))
            && (forall id :: id in s.fills ==>
                  WasAnswer(s.versions, s.fills[id].key, s.fills[id].value, s.fills[id].readAt))
  {
    RunKeepsInv(Init(start, tables), events, delay);
  }

  /** A stored answer is served for one hour from the moment it is stored, if nothing else happens to its key. */
  lemma ServedForAnHour(s: State, id: FillId, later: nat)
    requires id in s.fills
    ensures var f := s.fills[id];
            var t := Step(Step(s, EndFill(id)), Tick(later));
            && (Served(t, f.key) <==> later < 3600)
            && f.key in t.cache && t.cache[f.key].value == f.value && id !in t.fills
  {
  }

  // ------------------------------------------------------------------------------------------
  // When the cache is coherent although reads and edits overlap
  // ------------------------------------------------------------------------------------------

  ghost predicate NoFill(s: State, key: Key) {
    forall id :: id in s.fills ==> s.fills[id].key != key
  }

  /** What is served for the key, and what pending fills will store, is the tables' answer. */
  ghost predicate Clean(s: State, key: Key) {
    && s.versions != []
    && (Served(s, key) ==> Answer(Current(s), key) == Some(s.cache[key].value))
    && (forall id :: id in s.fills && s.fills[id].key == key ==> Answer(Current(s), key) == Some(s.fills[id].value))
  }

  predicate NoEdit(events: seq<Event>) {
    forall i :: 0 <= i < |events| ==> !events[i].Edit?
  }

  /** Never served anything but the tables' answer, as long as nobody edits the tables. */
  ghost predicate ServesAnswer(s: State, key: Key) {
    forall events :: NoEdit(events) ==>
      var t := Run(s, events); t.versions != [] && (Served(t, key) ==> Answer(Current(t), key) == Some(t.cache[key].value))
  }

  lemma EventKeepsClean(s: State, e: Event, key: Key)
    requires Clean(s, key) && !e.Edit?
    ensures Clean(Step(s, e), key)
  {
  }

  lemma {:induction false} ReadsKeepClean(s: State, events: seq<Event>, key: Key)
    requires Clean(s, key) && NoEdit(events)
    ensures Clean(Run(s, events), key)
    decreases |events|
  {
    if events != [] {
      EventKeepsClean(s, events[0], key);
      ReadsKeepClean(Step(s, events[0]), events[1..], key);
    }
  }

  /** A state is clean for a key exactly if only the tables' answer will be served for it until the next edit. */
  lemma CleanExactly(s: State, key: Key)
    requires s.versions != []
    ensures Clean(s, key) <==> ServesAnswer(s, key)
  {
    if Clean(s, key) {
      forall events | NoEdit(events)
        ensures Clean(Run(s, events), key)
      {
        ReadsKeepClean(s, events, key);
      }
    } else if Served(s, key) && Answer(Current(s), key) != Some(s.cache[key].value) {
      assert Run(s, []) == s && NoEdit([]);
    } else {
      var id :| id in s.fills && s.fills[id].key == key && Answer(Current(s), key) != Some(s.fills[id].value);
      var store := [EndFill(id)];
      assert Run(s, store) == Step(s, EndFill(id)) by {
        assert store[1..] == [] && Run(Step(s, EndFill(id)), []) == Step(s, EndFill(id));
      }
      assert NoEdit(store) && Served(Run(s, store), key);
    }
  }

  /** An edit that changes the key's answer meets no pending fill of the key, and the key is not being served. */
  ghost predicate Apart(s: State, e: Event, key: Key)
    requires s.versions != []
  {
    e.Edit? && Answer(e.tables, key) != Answer(Current(s), key) ==> NoFill(s, key) && !Served(s, key)
  }

  lemma EventExactly(s: State, e: Event, key: Key)
    requires Clean(s, key)
    ensures Clean(Step(s, e), key) <==> Apart(s, e, key)
  {
    if !e.Edit? {
      EventKeepsClean(s, e, key);
    } else {
      var t := Step(s, e);
      assert Current(t) == e.tables && t.fills == s.fills && t.cache == s.cache && t.now == s.now;
    }
  }

  ghost predicate AllClean(s: State, events: seq<Event>, key: Key)
    decreases |events|
  {
    Clean(s, key) && (events == [] || AllClean(Step(s, events[0]), events[1..], key))
  }

  ghost predicate AllApart(s: State, events: seq<Event>, key: Key)
    decreases |events|
  {
    events == [] ||
    (s.versions != [] && Apart(s, events[0], key) && AllApart(Step(s, events[0]), events[1..], key))
  }

  /**
   Over every run of overlapping fills, edits and invalidations, from a clean key: it stays clean throughout
   exactly if every edit that changes its answer happens while the key is neither served nor being filled.
   The invalidation that follows an edit's commit comes too late for the moments in between.
   */
  lemma {:induction false} CoherentRunsExactly(s: State, events: seq<Event>, key: Key)
    requires Clean(s, key)
    ensures AllClean(s, events, key) <==> AllApart(s, events, key)
    decreases |events|
  {
    if events != [] {
      EventExactly(s, events[0], key);
      var next := Step(s, events[0]);
      if Clean(next, key) {
        CoherentRunsExactly(next, events[1..], key);
      }
    }
  }

  // ------------------------------------------------------------------------------------------
  // When an invalidation restores coherence
  // ------------------------------------------------------------------------------------------

  /** A pending fill will store an answer for the key that the tables do not give any more. */
  ghost predicate StaleFill(s: State, id: FillId, key: Key) {
    s.versions != [] && id in s.fills && s.fills[id].key == key && Answer(Current(s), key) != Some(s.fills[id].value)
  }

  /** Whatever was served before, after an invalidation the key is clean exactly if no stale fill is pending. */
  lemma InvalidationExactly(s: State, key: Key)
    requires s.versions != []
    ensures Clean(Step(s, Invalidate(key)), key) <==> forall id :: !StaleFill(s, id, key)
  {
    var t := Step(s, Invalidate(key));
    assert Current(t) == Current(s) && t.fills == s.fills && !Served(t, key);
    if forall id :: !StaleFill(s, id, key) {
      forall id | id in t.fills && t.fills[id].key == key
        ensures Answer(Current(t), key) == Some(t.fills[id].value)
      {
        assert !StaleFill(s, id, key);
      }
    }
  }

  /** The fill is stored or given up during these events. */
  predicate Finishes(events: seq<Event>, id: FillId) {
    exists i :: 0 <= i < |events| && (events[i] == EndFill(id) || events[i] == AbandonFill(id))
  }

  lemma FinishesFirst(events: seq<Event>, id: FillId)
    requires events != []
    ensures Finishes(events, id) <==>
            events[0] == EndFill(id) || events[0] == AbandonFill(id) || Finishes(events[1..], id)
  {
    var rest := events[1..];
    assert forall i :: 0 <= i < |rest| ==> rest[i] == events[i + 1];
    if Finishes(rest, id) {
      var i :| 0 <= i < |rest| && (rest[i] == EndFill(id) || rest[i] == AbandonFill(id));
      assert events[i + 1] == rest[i];
    }
    if Finishes(events, id) && events[0] != EndFill(id) && events[0] != AbandonFill(id) {
      var i :| 0 <= i < |events| && (events[i] == EndFill(id) || events[i] == AbandonFill(id));
      assert rest[i - 1] == events[i];
    }
  }

  lemma StaleFillStep(s: State, e: Event, id: FillId, key: Key)
    requires s.versions != [] && !e.Edit?
    ensures Step(s, e).versions == s.versions
    ensures StaleFill(Step(s, e), id, key) <==> StaleFill(s, id, key) && e != EndFill(id) && e != AbandonFill(id)
  {
  }

  /** Between edits no stale fill begins; one ends by being stored or given up. */
  lemma {:induction false} StaleFillsAfter(s: State, events: seq<Event>, id: FillId, key: Key)
    requires s.versions != [] && NoEdit(events)
    ensures Run(s, events).versions == s.versions
    ensures StaleFill(Run(s, events), id, key) <==> StaleFill(s, id, key) && !Finishes(events, id)
    decreases |events|
  {
    if events != [] {
      StaleFillStep(s, events[0], id, key);
      StaleFillsAfter(Step(s, events[0]), events[1..], id, key);
      FinishesFirst(events, id);
    }
  }

  /** What is done between two saves: reads, the commit of the edit, reads again, the deletion of the key. */
  datatype Save = Save(before: seq<Event>, tables: Tables, between: seq<Event>)

  predicate OnlyReads(save: Save) {
    NoEdit(save.before) && NoEdit(save.between)
  }

  ghost function SaveRun(s: State, save: Save, key: Key): State {
    Step(Run(Step(Run(s, save.before), Edit(save.tables)), save.between), Invalidate(key))
  }

  /** Every fill that is pending at a commit which changes the answer is over before the deletion. */
  ghost predicate FillsFinish(s: State, save: Save, key: Key) {
    var t := Run(s, save.before);
    t.versions != [] && Answer(save.tables, key) != Answer(Current(t), key) ==>
      forall id :: id in t.fills && t.fills[id].key == key ==> Finishes(save.between, id)
  }

  /** At the commit of an edit the stale fills of a clean key are all its fills, or none. */
  lemma SavedFills(t: State, save: Save, key: Key)
    requires Clean(t, key)
    ensures var edited := Step(t, Edit(save.tables));
            forall id :: StaleFill(edited, id, key) <==>
              id in t.fills && t.fills[id].key == key && Answer(save.tables, key) != Answer(Current(t), key)
  {
    var edited := Step(t, Edit(save.tables));
    assert Current(edited) == save.tables && edited.fills == t.fills;
  }

  /** After a save the key is clean again exactly if the fills it overtook finish in time. */
  lemma SaveExactly(s: State, save: Save, key: Key)
    requires Clean(s, key) && OnlyReads(save)
    ensures Clean(SaveRun(s, save, key), key) <==> FillsFinish(s, save, key)
  {
    ReadsKeepClean(s, save.before, key);
    var t := Run(s, save.before);
    var edited := Step(t, Edit(save.tables));
    assert Current(edited) == save.tables && edited.fills == t.fills;
    forall id
      ensures StaleFill(Run(edited, save.between), id, key) <==>
              StaleFill(edited, id, key) && !Finishes(save.between, id)
      ensures Run(edited, save.between).versions == edited.versions
    {
      StaleFillsAfter(edited, save.between, id, key);
    }
    StaleFillsAfter(edited, save.between, FillId(0), key);
    InvalidationExactly(Run(edited, save.between), key);
    SavedFills(t, save, key);
  }

  ghost predicate CleanAfterEach(s: State, saves: seq<Save>, key: Key)
    decreases |saves|
  {
    Clean(s, key) && (saves == [] || CleanAfterEach(SaveRun(s, saves[0], key), saves[1..], key))
  }

  ghost predicate AllFillsFinish(s: State, saves: seq<Save>, key: Key)
    decreases |saves|
  {
    saves == [] || (FillsFinish(s, saves[0], key) && AllFillsFinish(SaveRun(s, saves[0], key), saves[1..], key))
  }

  /**
   Over any number of saves, each commit and deletion with reads in between: after every deletion the key is
   coherent exactly if every fill that a changing commit overtook is over by the deletion that follows it.
   */
  lemma {:induction false} SavesExactly(s: State, saves: seq<Save>, key: Key)
    requires Clean(s, key) && forall save :: save in saves ==> OnlyReads(save)
    ensures CleanAfterEach(s, saves, key) <==> AllFillsFinish(s, saves, key)
    decreases |saves|
  {
    if saves != [] {
      assert saves[0] in saves;
      SaveExactly(s, saves[0], key);
      var next := SaveRun(s, saves[0], key);
      if Clean(next, key) {
        SavesExactly(next, saves[1..], key);
      }
    }
  }

  /**
   Coherence does need reads and edits apart: an answer read before an edit and stored after the edit's
   invalidation is served although the tables answer differently.
   */
  lemma OverlapServesStaleAnswer(s: State, id: FillId, key: Key, edited: Tables)
    requires s.versions != [] && id !in s.fills
    requires Answer(Current(s), key).Some? && Answer(edited, key) != Answer(Current(s), key)
    ensures var s' := Step(Step(Step(Step(s, BeginFill(id, key)), Edit(edited)), Invalidate(key)), EndFill(id));
            && Served(s', key) && s'.versions != []
            && Answer(Current(s'), key) != Some(s'.cache[key].value)
  {
  }
}
