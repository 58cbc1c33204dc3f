// The BE_Events_Calendar object as the recurrence engine sees it: the posts
// it reads and writes, and which of its callbacks are attached to the
// wp_insert_post action. Each method is proved to leave the state that the
// matching function of module Posts describes.

module Plugin {
  import opened Php
  import opened Timestamps
  import opened Recurrence
  import opened Posts

  class EventsCalendar {
    var posts: map<nat, Event>
    var nextId: nat
    var hooks: set<Hook>

    function State(): Store
      reads this
    {
      Store(posts, nextId, hooks)
    }

    ghost predicate Valid()
      reads this
    {
      StoreValid(State())
    }

    /** init: attach generate_events and regenerate_events to wp_insert_post. */
    constructor ()
      ensures Valid() && posts == map[] && nextId == 1 && hooks == InsertHooks
    {
      posts := map[];
      nextId := 1;
      hooks := {};
      new;
      AddInsertPostHooks();
    }

    /** add_insert_post_hooks */
    method AddInsertPostHooks()
      modifies this`hooks
      ensures hooks == old(hooks) + InsertHooks
    {
      hooks := hooks + {GenerateHook};
      hooks := hooks + {RegenerateHook};
    }

    /** remove_insert_post_hooks */
    method RemoveInsertPostHooks()
      modifies this`hooks
      ensures hooks == old(hooks) - InsertHooks
    {
      hooks := hooks - {GenerateHook};
      hooks := hooks - {RegenerateHook};
    }

    /** wp_insert_post in the store: the post gets the next id. `fired` are the
        plugin callbacks the wp_insert_post action will run for it. */
    method InsertPost(e: Event) returns (id: nat, fired: set<Hook>)
      requires Valid()
      modifies this`posts, this`nextId
      ensures Valid()
      ensures id == old(nextId) && posts == old(posts)[id := e] && nextId == old(nextId) + 1
      ensures fired == hooks * InsertHooks
    {
      id := nextId;
      posts := posts[id := e];
      nextId := nextId + 1;
      fired := hooks * InsertHooks;
    }

    /** wp_delete_post with force_delete false: for a post type other than
        'post' and 'page' the post is deleted outright. */
    method DeletePost(k: nat)
      requires Valid()
      modifies this`posts
      ensures Valid() && posts == old(posts) - {k}
    {
      posts := posts - {k};
    }

    /** generate_events($post_id, $regenerating) */
    method GenerateEvents(id: nat, regenerating: bool, pol: Policy, now: int)
      requires Valid()
      modifies this
      ensures Valid()
      ensures State() == GenerateOutcome(old(State()), id, regenerating, pol, now)
    {
      if !pol.supported { return; }
      if id !in posts || posts[id].postType != EventsType { return; }
      var m := posts[id];
      if m.status != Publish { return; }
      if m.generated { return; }
      if m.parent != 0 { return; }
      if !Truthy(m.recurring) { return; }

      var stop := m.recurringEnd;
      if Empty(stop) && !Empty(m.start) {
        stop := Int(pol.dates.addYear(IntCast(m.start)));
      }
      if !IsTimestamp(stop) || !IsTimestamp(m.start) { return; }

      var p := Pass(id, m.period, IntCast(m.start), IntCast(stop), regenerating, now);
      assert Prepare(posts, id, regenerating, pol, now) == Some(p);
      RunPass(pol, p, m);
    }

    /** What generate_events does once the checks pass: detach both callbacks so
        that the inserts cannot re-enter, create the children, attach the
        callbacks again and latch be_generated_events on the master. */
    method RunPass(pol: Policy, p: Pass, m: Event)
      requires Valid() && p.id in posts && posts[p.id] == m
      modifies this
      ensures var occs := Occurrences(pol, p, IntCast(m.end), old(nextId));
        && Valid()
        && posts == AddChildren(pol, old(posts), m, p.id, occs, old(nextId))[p.id := m.(generated := true)]
        && nextId == old(nextId) + |occs|
        && hooks == old(hooks) + InsertHooks
    {
      ghost var posts0, next0 := posts, nextId;
      ghost var occs := Occurrences(pol, p, IntCast(m.end), next0);

      RemoveInsertPostHooks();
      CreateChildren(pol, p, m, IntCast(m.end));
      AddInsertPostHooks();

      assert posts[p.id] == m;
      posts := posts[p.id := posts[p.id].(generated := true)];
    }

    /** The `while` loop of generate_events for master `m` and pass `p`: from
        the master's own start and end, create a child for every start the
        loop admits, then step the dates and the counter. It runs while both
        callbacks are detached, so no insert fires any of them. */
    method CreateChildren(pol: Policy, p: Pass, m: Event, end0: Int64)
      requires Valid()
      requires hooks * InsertHooks == {}
      modifies this`posts, this`nextId
      ensures Valid()
      ensures var occs := Occurrences(pol, p, end0, old(nextId));
        && nextId == old(nextId) + |occs|
        && posts == AddChildren(pol, old(posts), m, p.id, occs, old(nextId))
    {
      var start: Int64 := p.origin;
      var end: Int64 := end0;
      var last: Option<nat> := None;
      var i := 1;

      ghost var posts0, next0 := posts, nextId;
      ghost var created: seq<Occurrence> := [];
      ghost var all := Occurrences(pol, p, end0, next0);

      while start < p.stop && i < pol.limit
        invariant Valid()
        invariant nextId == next0 + |created|
        invariant posts == AddChildren(pol, posts0, m, p.id, created, next0)
        invariant created + Expand(pol, p, start, end, i, last, nextId) == all
        decreases pol.limit - i
      {
        ghost var next, last0, created0 := nextId, last, created;
        if Creates(p, start) {
          var o := Occurrence(start, end);
          var childId := InsertChild(pol, m, p.id, o, posts0, next0, created);
          last := Some(childId);
          created := created + [o];
        }
        ExpandAdvance(pol, p, start, end, i, last0, next, created0, all, last, nextId, created);
        // Both filters see the start of the turn that just ended.
        start, end := NextStart(pol, p, start, last), NextEnd(pol, p, start, end, last);
        i := i + 1;
      }
      assert Expand(pol, p, start, end, i, last, nextId) == [];
      assert created + [] == created;
      assert created == all;
    }

    /** One wp_insert_post of the loop: the child for occurrence `o` of master
        `m` (id `id`) gets the next id, which the loop keeps as the last
        created event. With the callbacks detached, nothing else runs. */
    method InsertChild(pol: Policy, m: Event, id: nat, o: Occurrence,
                       ghost posts0: map<nat, Event>, ghost next0: nat, ghost created: seq<Occurrence>)
      returns (childId: nat)
      requires Valid() && hooks * InsertHooks == {}
      requires nextId == next0 + |created| && posts == AddChildren(pol, posts0, m, id, created, next0)
      modifies this`posts, this`nextId
      ensures Valid() && childId == old(nextId)
      ensures nextId == next0 + |created + [o]| && posts == AddChildren(pol, posts0, m, id, created + [o], next0)
    {
      AddChildrenSnoc(pol, posts0, m, id, created, o, next0);
      var fired;
      childId, fired := InsertPost(Child(pol, m, id, o));
      // The wp_insert_post action for the child finds neither callback attached.
      assert fired == {};
    }

    /** regenerate_events($post_id) */
    method RegenerateEvents(id: nat, pol: Policy, now: int, time: int)
      requires Valid()
      modifies this
      ensures Valid()
      ensures State() == RegenerateOutcome(old(State()), id, pol, now, time)
    {
      if id !in posts || posts[id].postType != EventsType { return; }
      if !pol.supported { return; }
      if !posts[id].regenerate { return; }

      // The query for the master's children that start after `time`.
      var found := FutureChildren(posts, id, time);
      ghost var posts0 := posts;
      ghost var doomed := FutureChildren(posts0, id, time);
      while found != {}
        invariant Valid() && nextId == old(nextId) && hooks == old(hooks)
        invariant found <= doomed
        invariant posts == posts0 - ((doomed - found) - {id})
        decreases found
      {
        var k :| k in found;
        if id != k {
          DeletePost(k);
        }
        found := found - {k};
      }

      assert posts == posts0 - (doomed - {id});
      posts := posts[id := posts[id].(regenerate := false)];
      posts := posts[id := posts[id].(generated := false)];
      ghost var kept := posts0 - (doomed - {id});
      assert posts == kept[id := kept[id].(regenerate := false, generated := false)];
      GenerateEvents(id, true, pol, now);
    }

    /** do_action('wp_insert_post', $post_id): the attached callbacks run in the
        order they were added, each given only the post id. */
    method OnInsertPost(id: nat, pol: Policy, now: int, time: int)
      requires Valid()
      modifies this
      ensures Valid()
      ensures State() == InsertPostAction(old(State()), id, pol, now, time)
    {
      var attached := hooks * InsertHooks;
      if GenerateHook in attached {
        GenerateEvents(id, false, pol, now);
      }
      if RegenerateHook in attached {
        RegenerateEvents(id, pol, now, time);
      }
    }

    /** Saving a new post: insert it, then fire wp_insert_post for it. */
    method SavePost(e: Event, pol: Policy, now: int, time: int) returns (id: nat)
      requires Valid()
      modifies this
      ensures Valid() && id == old(nextId)
      ensures State() == InsertPostAction(Store(old(posts)[id := e], id + 1, old(hooks)), id, pol, now, time)
    {
      var fired;
      id, fired := InsertPost(e);
      assert State() == Store(old(posts)[id := e], id + 1, old(hooks));
      OnInsertPost(id, pol, now, time);
    }

    /** Updating an existing post (wp_update_post): store it, then fire
        wp_insert_post for it. An unknown id changes nothing. */
    method UpdatePost(id: nat, e: Event, pol: Policy, now: int, time: int)
      requires Valid()
      modifies this
      ensures Valid()
      ensures id !in old(posts) ==> State() == old(State())
      ensures id in old(posts) ==>
        State() == InsertPostAction(Store(old(posts)[id := e], old(nextId), old(hooks)), id, pol, now, time)
    {
      if id !in posts { return; }
      posts := posts[id := e];
      OnInsertPost(id, pol, now, time);
    }

    /** wp_trash_post: the wp_trash_post action detaches both callbacks, the
        status update fires wp_insert_post with nothing attached, and the
        trashed_post action attaches both again. A missing or already trashed
        post changes nothing. */
    method TrashPost(id: nat, pol: Policy, now: int, time: int)
      requires Valid()
      modifies this
      ensures Valid()
      ensures id !in old(posts) || old(posts)[id].status == Trash ==> State() == old(State())
      ensures id in old(posts) && old(posts)[id].status != Trash ==>
        && posts == old(posts)[id := old(posts)[id].(status := Trash)]
        && nextId == old(nextId)
        && hooks == old(hooks) + InsertHooks
    {
      if id !in posts || posts[id].status == Trash { return; }
      RemoveInsertPostHooks();
      posts := posts[id := posts[id].(status := Trash)];
      DetachedInsertRunsNothing(State(), id, pol, now, time);
      OnInsertPost(id, pol, now, time);
      AddInsertPostHooks();
    }

    /** wp_untrash_post: the untrash_post action detaches both callbacks, the
        post is restored to `restored` (the status WordPress picks) with
        wp_insert_post firing with nothing attached, and the untrashed_post
        action attaches both again. A post not in the trash changes nothing. */
    method UntrashPost(id: nat, restored: Status, pol: Policy, now: int, time: int)
      requires Valid()
      modifies this
      ensures Valid()
      ensures id !in old(posts) || old(posts)[id].status != Trash ==> State() == old(State())
      ensures id in old(posts) && old(posts)[id].status == Trash ==>
        && posts == old(posts)[id := old(posts)[id].(status := restored)]
        && nextId == old(nextId)
        && hooks == old(hooks) + InsertHooks
    {
      if id !in posts || posts[id].status != Trash { return; }
      RemoveInsertPostHooks();
      posts := posts[id := posts[id].(status := restored)];
      DetachedInsertRunsNothing(State(), id, pol, now, time);
      OnInsertPost(id, pol, now, time);
      AddInsertPostHooks();
    }
  }
}
