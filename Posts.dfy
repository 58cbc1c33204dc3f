// The posts the events calendar reads and writes, and what generate_events,
// regenerate_events and the wp_insert_post action do to them, as functions
// of the state before the call.

module Posts {
  import opened Php
  import opened Timestamps
  import opened Recurrence

  const EventsType: string := "events"

  datatype Status = Publish | Draft | Pending | Private | Future | Trash

  /** A post with the metadata the engine uses. `parent` is post_parent (0 for
      none); `start`, `end`, `recurring` and `recurringEnd` are the be_event_start,
      be_event_end, be_recurring and be_recurring_end meta values as stored;
      `generated` and `regenerate` are the be_generated_events and
      be_regenerate_events flags; `terms` are the event-category slugs and
      `meta` any further metadata. */
  datatype Event = Event(
    postType: string,
    status: Status,
    parent: nat,
    title: string,
    content: string,
    start: Value,
    end: Value,
    recurring: Value,
    period: string,
    recurringEnd: Value,
    generated: bool,
    regenerate: bool,
    terms: set<string>,
    meta: map<string, Value>)

  /** The two callbacks the plugin attaches to the wp_insert_post action. */
  datatype Hook = GenerateHook | RegenerateHook

  const InsertHooks: set<Hook> := {GenerateHook, RegenerateHook}

  /** The posts by id, the id the next inserted post receives, and which of the
      plugin's callbacks are attached to wp_insert_post. */
  datatype Store = Store(posts: map<nat, Event>, nextId: nat, hooks: set<Hook>)

  /** Ids are positive and below the next id to hand out. */
  predicate StoreValid(st: Store) {
    st.nextId >= 1 && forall k :: k in st.posts ==> 1 <= k < st.nextId
  }

  // ---- generate_events ----

  /** `$stop`: be_recurring_end, or one year after the start when that is empty
      and the start is not. */
  function StopValue(pol: Policy, m: Event): Value {
    if Empty(m.recurringEnd) && !Empty(m.start) then Int(pol.dates.addYear(IntCast(m.start)))
    else m.recurringEnd
  }

  /** The early exits of generate_events, in the source's order. None when the
      call returns without doing anything, else the pass it runs. */
  function Prepare(posts: map<nat, Event>, id: nat, regenerating: bool, pol: Policy, now: int): (r: Option<Pass>)
    ensures r.Some? ==> id in posts && r.value.id == id && r.value.regenerating == regenerating && r.value.now == now
  {
    if !pol.supported then None
    else if id !in posts || posts[id].postType != EventsType then None
    else if posts[id].status != Publish then None
    else if posts[id].generated then None
    else if posts[id].parent != 0 then None
    else if !Truthy(posts[id].recurring) then None
    else
      var m := posts[id];
      var stop := StopValue(pol, m);
      if !IsTimestamp(stop) || !IsTimestamp(m.start) then None
      else Some(Pass(id, m.period, IntCast(m.start), IntCast(stop), regenerating, now))
  }

  /** The meta values copied for the be_events_manager_recurring_meta keys
      (a missing key reads as ""). */
  function CopiedMeta(meta: map<string, Value>, keys: seq<string>): map<string, Value> {
    map k | k in keys :: if k in meta then meta[k] else Str("")
  }

  /** The child post created for one occurrence of master `m` (id `id`). */
  function Child(pol: Policy, m: Event, id: nat, o: Occurrence): Event {
    Event(EventsType, Publish, id, m.title, m.content, Int(o.start), Int(o.end), Str("0"), "", Str(""),
          false, false, if pol.categories then m.terms else {}, CopiedMeta(m.meta, pol.metaKeys))
  }

  /** The ids next .. next + n - 1. */
  function IdRange(next: nat, n: nat): (ids: set<nat>)
    ensures forall k :: k in ids <==> next <= k < next + n
  {
    if n == 0 then {} else IdRange(next, n - 1) + {next + n - 1}
  }

  /** The posts after inserting one child per occurrence, in order, with
      consecutive ids from `next` on. */
  function AddChildren(pol: Policy, posts: map<nat, Event>, m: Event, id: nat, occs: seq<Occurrence>, next: nat): map<nat, Event> {
    var ids := IdRange(next, |occs|);
    map k | k in posts.Keys + ids :: if k in ids then Child(pol, m, id, occs[k - next]) else posts[k]
  }

  /** The store after pass `p` over master `id`: one child per occurrence,
      the master latched as generated, both callbacks attached again. */
  function PassOutcome(st: Store, id: nat, pol: Policy, p: Pass): Store
    requires id in st.posts
  {
    var m := st.posts[id];
    var occs := Occurrences(pol, p, IntCast(m.end), st.nextId);
    Store(AddChildren(pol, st.posts, m, id, occs, st.nextId)[id := m.(generated := true)],
          st.nextId + |occs|, st.hooks + InsertHooks)
  }

  /** The store after generate_events(id, regenerating). */
  function GenerateOutcome(st: Store, id: nat, regenerating: bool, pol: Policy, now: int): Store {
    match Prepare(st.posts, id, regenerating, pol, now)
    case None => st
    case Some(p) => PassOutcome(st, id, pol, p)
  }

  // ---- regenerate_events ----

  /** What the deletion query matches: an event whose parent is the master and
      whose start is after the current time. */
  predicate FutureChild(e: Event, id: nat, time: int) {
    e.postType == EventsType && e.parent == id && IntCast(e.start) > time
  }

  function FutureChildren(posts: map<nat, Event>, id: nat, time: int): set<nat> {
    set k | k in posts && FutureChild(posts[k], id, time)
  }

  /** The early exits of regenerate_events. */
  predicate RegenerateRuns(posts: map<nat, Event>, id: nat, pol: Policy) {
    id in posts && posts[id].postType == EventsType && pol.supported && posts[id].regenerate
  }

  /** The store after regenerate_events(id): the master's future children are
      deleted (never the master itself), both flags are cleared, and
      generate_events(id, true) runs. */
  function RegenerateOutcome(st: Store, id: nat, pol: Policy, now: int, time: int): Store {
    if !RegenerateRuns(st.posts, id, pol) then st
    else
      var kept := st.posts - (FutureChildren(st.posts, id, time) - {id});
      var cleared := kept[id := kept[id].(regenerate := false, generated := false)];
      GenerateOutcome(Store(cleared, st.nextId, st.hooks), id, true, pol, now)
  }

  // ---- the wp_insert_post action ----

  /** The wp_insert_post action for post `id`: the callbacks attached when it
      fires run in the order they were added, generate_events (with
      `$regenerating` left false) before regenerate_events. */
  function InsertPostAction(st: Store, id: nat, pol: Policy, now: int, time: int): Store {
    var attached := st.hooks * InsertHooks;
    var afterGenerate := if GenerateHook in attached then GenerateOutcome(st, id, false, pol, now) else st;
    if RegenerateHook in attached then RegenerateOutcome(afterGenerate, id, pol, now, time) else afterGenerate
  }

  // ---- properties ----

  /** generate_events returns without effect exactly when one of its early
      exits applies. */
  lemma GenerateRunsIff(st: Store, id: nat, regenerating: bool, pol: Policy, now: int)
    ensures Prepare(st.posts, id, regenerating, pol, now).Some?
      <==> pol.supported && id in st.posts && st.posts[id].postType == EventsType
           && st.posts[id].status == Publish && !st.posts[id].generated && st.posts[id].parent == 0
           && Truthy(st.posts[id].recurring)
           && IsTimestamp(StopValue(pol, st.posts[id])) && IsTimestamp(st.posts[id].start)
    ensures Prepare(st.posts, id, regenerating, pol, now).None? ==> GenerateOutcome(st, id, regenerating, pol, now) == st
  {
  }

  /** Inserting one more child: the snoc step of AddChildren. */
  lemma AddChildrenSnoc(pol: Policy, posts: map<nat, Event>, m: Event, id: nat, occs: seq<Occurrence>, o: Occurrence, next: nat)
    ensures AddChildren(pol, posts, m, id, occs + [o], next)
      == AddChildren(pol, posts, m, id, occs, next)[next + |occs| := Child(pol, m, id, o)]
  {
    var grown := AddChildren(pol, posts, m, id, occs + [o], next);
    var stepped := AddChildren(pol, posts, m, id, occs, next)[next + |occs| := Child(pol, m, id, o)];
    assert forall k :: k in grown <==> k in stepped;
    forall k | k in grown
      ensures grown[k] == stepped[k]
    {
      if next <= k < next + |occs| {
        assert (occs + [o])[k - next] == occs[k - next];
      }
    }
  }

  /** A second generate_events after a first one adds nothing: either the
      first call was a no-op and the second one is too, or the first latched
      be_generated_events. */
  lemma GenerateIdempotent(st: Store, id: nat, r1: bool, r2: bool, pol: Policy, now1: int, now2: int)
    requires StoreValid(st)
    ensures var once := GenerateOutcome(st, id, r1, pol, now1);
      GenerateOutcome(once, id, r2, pol, now2) == once
  {
    match Prepare(st.posts, id, r1, pol, now1)
    case None =>
      assert Prepare(st.posts, id, r2, pol, now2).None?;
    case Some(p) =>
      var m := st.posts[id];
      var occs := Occurrences(pol, p, IntCast(m.end), st.nextId);
    }

  /** After a pass that ran: the master is marked generated and otherwise
      unchanged, both insert hooks are attached, every other existing post is
      untouched, and the new posts are exactly the ids nextId.. of the
      occurrences, each a published child of the master with be_recurring '0',
      the occurrence's start and end and the master's title and content. */
  lemma PassEffect(st: Store, id: nat, pol: Policy, p: Pass)
    requires StoreValid(st) && id in st.posts
    ensures var m := st.posts[id];
      var occs := Occurrences(pol, p, IntCast(m.end), st.nextId);
      var after := PassOutcome(st, id, pol, p);
      && StoreValid(after)
      && after.nextId == st.nextId + |occs|
      && after.hooks == st.hooks + InsertHooks
      && id in after.posts && after.posts[id] == m.(generated := true)
      && (forall k :: k in st.posts && k != id ==> k in after.posts && after.posts[k] == st.posts[k])
      && (forall k :: k in after.posts ==> k in st.posts || st.nextId <= k < after.nextId)
      && (forall j :: 0 <= j < |occs| ==>
            (st.nextId + j in after.posts && after.posts[st.nextId + j] == Child(pol, m, id, occs[j])))
  {
    var m := st.posts[id];
    var occs := Occurrences(pol, p, IntCast(m.end), st.nextId);
  }

  /** Every post a pass creates is a published, non-recurring events post whose
      parent is the master, whose start differs from the master's, lies before
      the stop time and, when regenerating, after the current time; a pass
      creates at most limit - 2 posts. */
  lemma GeneratedChildren(st: Store, id: nat, regenerating: bool, pol: Policy, now: int, p: Pass)
    requires StoreValid(st)
    requires Prepare(st.posts, id, regenerating, pol, now) == Some(p)
    ensures var after := GenerateOutcome(st, id, regenerating, pol, now);
      && after.nextId - st.nextId <= Max0(pol.limit - 2)
      && forall k :: k in after.posts && k !in st.posts ==>
           var c := after.posts[k];
           && c.postType == EventsType && c.status == Publish && c.parent == id
           && c.recurring == Str("0") && !Truthy(c.recurring)
           && c.start.Int? && c.start.i != p.origin && c.start.i < p.stop
           && (regenerating ==> c.start.i > now)
  {
    var m := st.posts[id];
    var occs := Occurrences(pol, p, IntCast(m.end), st.nextId);
    PassEffect(st, id, pol, p);
    OccurrencesBound(pol, p, IntCast(m.end), st.nextId);
    ExpandAdmissible(pol, p, p.origin, IntCast(m.end), 1, None, st.nextId);
    var after := GenerateOutcome(st, id, regenerating, pol, now);
    forall k | k in after.posts && k !in st.posts
      ensures var c := after.posts[k];
        && c.postType == EventsType && c.status == Publish && c.parent == id
        && c.recurring == Str("0") && !Truthy(c.recurring)
        && c.start.Int? && c.start.i != p.origin && c.start.i < p.stop
        && (regenerating ==> c.start.i > now)
    {
      var j := k - st.nextId;
      assert Admissible(p, occs[j]);
      assert after.posts[k] == Child(pol, m, id, occs[j]);
    }
  }

  /** A master whose period is not daily, weekly or monthly (and with no start
      filter) gets no children, yet is still marked generated. */
  lemma UnknownPeriodOnlyLatches(st: Store, id: nat, regenerating: bool, pol: Policy, now: int, p: Pass)
    requires StoreValid(st)
    requires Prepare(st.posts, id, regenerating, pol, now) == Some(p)
    requires ParsePeriod(st.posts[id].period) == Unknown && StartFilterIsIdentity(pol)
    ensures var after := GenerateOutcome(st, id, regenerating, pol, now);
      after.posts == st.posts[id := st.posts[id].(generated := true)] && after.nextId == st.nextId
  {
    UnknownPeriodExpandsToNothing(pol, p, IntCast(st.posts[id].end), 1, None, st.nextId);
  }

  /** generate_events never deletes a post and changes no existing post but
      the master. */
  lemma GenerateKeeps(st: Store, id: nat, regenerating: bool, pol: Policy, now: int)
    requires StoreValid(st)
    ensures var after := GenerateOutcome(st, id, regenerating, pol, now);
      && StoreValid(after) && after.nextId >= st.nextId
      && forall k :: k in st.posts ==> k in after.posts && (k != id ==> after.posts[k] == st.posts[k])
  {
    if Prepare(st.posts, id, regenerating, pol, now).Some? {
      PassEffect(st, id, pol, Prepare(st.posts, id, regenerating, pol, now).value);
    }
  }

  /** regenerate_events deletes exactly the master's future children: a post
      that existed before survives exactly when it is the master or not a
      future child of it, and every survivor other than the master is
      unchanged. When it runs, both flags of the master are cleared before
      the generator runs in regenerating mode. */
  lemma RegenerateDeletesOnlyFutureChildren(st: Store, id: nat, pol: Policy, now: int, time: int)
    requires StoreValid(st)
    requires RegenerateRuns(st.posts, id, pol)
    ensures var after := RegenerateOutcome(st, id, pol, now, time);
      && StoreValid(after)
      && id in after.posts && !after.posts[id].regenerate
      && (forall k :: k in st.posts ==> (k in after.posts <==> k == id || !FutureChild(st.posts[k], id, time)))
      && (forall k :: k in st.posts && k != id && k in after.posts ==> after.posts[k] == st.posts[k])
  {
    var kept := st.posts - (FutureChildren(st.posts, id, time) - {id});
    var cleared := kept[id := kept[id].(regenerate := false, generated := false)];
    var mid := Store(cleared, st.nextId, st.hooks);
    assert StoreValid(mid);
    GenerateKeeps(mid, id, true, pol, now);
    var after := GenerateOutcome(mid, id, true, pol, now);
    if Prepare(mid.posts, id, true, pol, now).Some? {
      PassEffect(mid, id, pol, Prepare(mid.posts, id, true, pol, now).value);
    }
    forall k | k in after.posts && k !in mid.posts
      ensures k !in st.posts
    {
    }
  }

  /** regenerate_events is a no-op unless it is an events post, recurring
      events are supported and be_regenerate_events is set. */
  lemma RegenerateSkips(st: Store, id: nat, pol: Policy, now: int, time: int)
    requires !RegenerateRuns(st.posts, id, pol)
    ensures RegenerateOutcome(st, id, pol, now, time) == st
  {
  }

  /** With neither callback attached (during trash and untrash, or during a
      pass), inserting or updating a post runs nothing. */
  lemma DetachedInsertRunsNothing(st: Store, id: nat, pol: Policy, now: int, time: int)
    requires st.hooks * InsertHooks == {}
    ensures InsertPostAction(st, id, pol, now, time) == st
  {
  }

  /** Saving a post with both callbacks attached leaves them attached. */
  lemma InsertPostKeepsHooks(st: Store, id: nat, pol: Policy, now: int, time: int)
    requires InsertHooks <= st.hooks
    ensures InsertHooks <= InsertPostAction(st, id, pol, now, time).hooks
  {
    var g := if GenerateHook in st.hooks then GenerateOutcome(st, id, false, pol, now) else st;
    assert InsertHooks <= g.hooks;
    if RegenerateRuns(g.posts, id, pol) {
      var kept := g.posts - (FutureChildren(g.posts, id, time) - {id});
      var cleared := kept[id := kept[id].(regenerate := false, generated := false)];
      assert InsertHooks <= GenerateOutcome(Store(cleared, g.nextId, g.hooks), id, true, pol, now).hooks;
    }
  }
}
