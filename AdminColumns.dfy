// The two admin-screen filters of the events calendar that compute a value:
// sort_events rewrites the query variables of the events list when it is
// sorted by start or end, and edit_event_columns renames two columns of the
// list table and inserts the event columns after the first two.

module AdminColumns {
  import opened Php

  // ---- sort_events ----

  /** isset($vars[k]): present and not null. */
  predicate IsSet(vars: map<string, Value>, k: string) {
    k in vars && !vars[k].Null?
  }

  /** `$lit == $v` for a literal that is a non-empty, non-numeric string (PHP 8
      loose comparison): a string must be that string, `true` matches any such
      literal, and an int, `false` or null never does. */
  predicate LooselyIs(v: Value, lit: string)
    requires lit != "" && lit != "0" && !IsDigit(lit[0]) && lit[0] != '-'
  {
    match v
    case Str(s) => s == lit
    case Bool(b) => b
    case Int(_) => false
    case Null => false
  }

  /** array_merge($vars, array('meta_key' => key, 'orderby' => 'meta_value_num')). */
  function OrderByMeta(vars: map<string, Value>, key: string): map<string, Value> {
    vars["meta_key" := Str(key)]["orderby" := Str("meta_value_num")]
  }

  /** sort_events($vars): for an events query ordered by event_start or
      event_end, order numerically by the be_event_start or be_event_end meta
      value instead. The two tests run one after the other on the updated
      vars. */
  function SortEvents(vars: map<string, Value>): (r: map<string, Value>)
    ensures !(IsSet(vars, "post_type") && LooselyIs(vars["post_type"], "events")) ==> r == vars
    ensures forall k :: k != "meta_key" && k != "orderby" ==> (k in r <==> k in vars)
    ensures forall k :: k in vars && k != "meta_key" && k != "orderby" ==> r[k] == vars[k]
  {
    if IsSet(vars, "post_type") && LooselyIs(vars["post_type"], "events") then
      var afterStart :=
        if IsSet(vars, "orderby") && LooselyIs(vars["orderby"], "event_start") then OrderByMeta(vars, "be_event_start")
        else vars;
      if IsSet(afterStart, "orderby") && LooselyIs(afterStart["orderby"], "event_end") then OrderByMeta(afterStart, "be_event_end")
      else afterStart
    else
      vars
  }

  /** The query an events list sorted by one of the two columns ends up with,
      and the query left alone otherwise. A query sorted by event_start gets
      be_event_start, never be_event_end: the first rewrite replaces the
      orderby the second test looks at. */
  lemma SortEventsRewrites(vars: map<string, Value>)
    requires IsSet(vars, "post_type") && LooselyIs(vars["post_type"], "events")
    ensures IsSet(vars, "orderby") && LooselyIs(vars["orderby"], "event_start") ==>
      SortEvents(vars) == OrderByMeta(vars, "be_event_start")
    ensures IsSet(vars, "orderby") && LooselyIs(vars["orderby"], "event_end") && !LooselyIs(vars["orderby"], "event_start") ==>
      SortEvents(vars) == OrderByMeta(vars, "be_event_end")
    ensures !(IsSet(vars, "orderby") && (LooselyIs(vars["orderby"], "event_start") || LooselyIs(vars["orderby"], "event_end"))) ==>
      SortEvents(vars) == vars
  {
    var m := OrderByMeta(vars, "be_event_start");
    assert m["orderby"] == Str("meta_value_num");
  }

  /** Filtering a query twice changes nothing more than filtering it once. */
  lemma SortEventsIdempotent(vars: map<string, Value>)
    ensures SortEvents(SortEvents(vars)) == SortEvents(vars)
  {
    var r := SortEvents(vars);
    if r != vars {
      assert r["orderby"] == Str("meta_value_num");
      assert r["post_type"] == vars["post_type"];
    }
  }

  // ---- edit_event_columns ----

  /** A PHP array with string keys, in its iteration order. */
  type Columns = seq<(string, string)>

  function Keys(cols: Columns): set<string> {
    if cols == [] then {} else {cols[0].0} + Keys(cols[1..])
  }

  /** No key occurs twice, as in every PHP array. */
  predicate UniqueKeys(cols: Columns) {
    cols == [] || (cols[0].0 !in Keys(cols[1..]) && UniqueKeys(cols[1..]))
  }

  /** $cols[$k], when the key is present. */
  function Get(cols: Columns, k: string): (r: Option<string>)
    ensures r.Some? <==> k in Keys(cols)
  {
    if cols == [] then None
    else if cols[0].0 == k then Some(cols[0].1)
    else Get(cols[1..], k)
  }

  /** `$cols[$k] = $v`: a present key keeps its place, a new key goes last. */
  function Assign(cols: Columns, k: string, v: string): Columns {
    if cols == [] then [(k, v)]
    else if cols[0].0 == k then [(k, v)] + cols[1..]
    else [cols[0]] + Assign(cols[1..], k, v)
  }

  /** After `$cols[$k] = $v` the key is present with the new value, no other
      key changes, keys stay unique, and a new key is appended at the end. */
  lemma {:induction false} AssignSpec(cols: Columns, k: string, v: string)
    ensures var r := Assign(cols, k, v);
      && Keys(r) == Keys(cols) + {k}
      && Get(r, k) == Some(v)
      && (forall k' :: k' != k ==> Get(r, k') == Get(cols, k'))
      && (UniqueKeys(cols) ==> UniqueKeys(r))
      && |r| >= |cols|
      && (k !in Keys(cols) ==> r == cols + [(k, v)])
    decreases |cols|
  {
    if cols != [] && cols[0].0 != k {
      var rest := Assign(cols[1..], k, v);
      AssignSpec(cols[1..], k, v);
      assert ([cols[0]] + rest)[1..] == rest;
      assert cols == [cols[0]] + cols[1..];
    } else if cols != [] {
      assert ([(k, v)] + cols[1..])[1..] == cols[1..];
    }
  }

  /** array_merge($a, $b) for string keys: each entry of $b overwrites the
      value of a key already present, in its place, or is appended. */
  function Merge(a: Columns, b: Columns): Columns
    decreases |b|
  {
    if b == [] then a else Merge(Assign(a, b[0].0, b[0].1), b[1..])
  }

  /** The columns the plugin adds: start and end, and the recurring series
      when recurring events are supported. */
  function NewColumns(recurring: bool): Columns {
    [("event_start", "Starts"), ("event_end", "Ends")] + (if recurring then [("recurring", "Recurring Series")] else [])
  }

  /** edit_event_columns($columns): title and date are relabelled, then the
      array is split after its second entry and the new columns are merged in
      between. */
  function EditEventColumns(columns: Columns, recurring: bool): Columns {
    var relabelled := Assign(Assign(columns, "title", "Event"), "date", "Published Date");
    var cut := if |relabelled| < 2 then |relabelled| else 2;
    Merge(Merge(Merge([], relabelled[..cut]), NewColumns(recurring)), relabelled[cut..])
  }

  // ---- properties of the column editor ----

  lemma KeysSingle(e: (string, string))
    ensures Keys([e]) == {e.0} && UniqueKeys([e])
  {
    assert [e][1..] == [];
  }

  lemma NewColumnsKeys(recurring: bool)
    ensures UniqueKeys(NewColumns(recurring))
    ensures Keys(NewColumns(recurring)) == {"event_start", "event_end"} + (if recurring then {"recurring"} else {})
  {
    var c := NewColumns(recurring);
    assert "event_start" != "event_end" by { assert |"event_start"| == 11 && |"event_end"| == 9; }
    assert "event_start" != "recurring" && "event_end" != "recurring" by {
      assert "event_start"[0] == 'e' && "event_end"[0] == 'e' && "recurring"[0] == 'r';
    }
    var tail := c[1..];
    if recurring {
      assert tail == [("event_end", "Ends"), ("recurring", "Recurring Series")];
      KeysSingle(("recurring", "Recurring Series"));
      assert tail[1..] == [("recurring", "Recurring Series")];
      assert Keys(tail) == {"event_end", "recurring"};
    } else {
      assert tail == [("event_end", "Ends")];
      KeysSingle(("event_end", "Ends"));
    }
  }

  lemma {:induction false} KeysAppend(a: Columns, b: Columns)
    ensures Keys(a + b) == Keys(a) + Keys(b)
    decreases |a|
  {
    if a == [] {
      assert a + b == b;
    } else {
      assert (a + b)[1..] == a[1..] + b;
      KeysAppend(a[1..], b);
    }
  }

  lemma {:induction false} UniqueAppend(a: Columns, b: Columns)
    requires UniqueKeys(a) && UniqueKeys(b) && Keys(a) !! Keys(b)
    ensures UniqueKeys(a + b)
    decreases |a|
  {
    if a == [] {
      assert a + b == b;
    } else {
      assert (a + b)[1..] == a[1..] + b;
      UniqueAppend(a[1..], b);
      KeysAppend(a[1..], b);
    }
  }

  /** array_merge never loses or invents a key, and keeps keys unique. */
  lemma {:induction false} MergeKeys(a: Columns, b: Columns)
    requires UniqueKeys(a)
    ensures Keys(Merge(a, b)) == Keys(a) + Keys(b)
    ensures UniqueKeys(Merge(a, b))
    decreases |b|
  {
    if b != [] {
      AssignSpec(a, b[0].0, b[0].1);
      MergeKeys(Assign(a, b[0].0, b[0].1), b[1..]);
    }
  }

  /** array_merge: a key of $b takes the value of its entry in $b; any other
      key keeps its value from $a. */
  lemma {:induction false} MergeGet(a: Columns, b: Columns, k: string)
    ensures k !in Keys(b) ==> Get(Merge(a, b), k) == Get(a, k)
    ensures UniqueKeys(b) && k in Keys(b) ==> Get(Merge(a, b), k) == Get(b, k)
    decreases |b|
  {
    if b != [] {
      AssignSpec(a, b[0].0, b[0].1);
      MergeGet(Assign(a, b[0].0, b[0].1), b[1..], k);
    }
  }

  /** The first step of MergeDisjoint: the first entry of $b is appended, and
      the rest of $b is still disjoint from the result. */
  lemma AppendFirst(a: Columns, b: Columns)
    requires b != [] && UniqueKeys(b) && Keys(a) !! Keys(b)
    ensures Assign(a, b[0].0, b[0].1) == a + [b[0]]
    ensures UniqueKeys(b[1..]) && Keys(a + [b[0]]) !! Keys(b[1..])
  {
    var head, tail := b[0], b[1..];
    assert Keys(b) == {head.0} + Keys(tail);
    AssignSpec(a, head.0, head.1);
    KeysAppend(a, [head]);
    KeysSingle(head);
  }

  /** When no key of $b is in $a, array_merge just appends $b. */
  lemma {:induction false} MergeDisjoint(a: Columns, b: Columns)
    requires UniqueKeys(b) && Keys(a) !! Keys(b)
    ensures Merge(a, b) == a + b
    decreases |b|
  {
    if b != [] {
      var head, tail := b[0], b[1..];
      assert a + [head] + tail == a + b by {
        assert b == [head] + tail;
      }
      AppendFirst(a, b);
      MergeDisjoint(a + [head], tail);
      calc {
        Merge(a, b);
        Merge(Assign(a, head.0, head.1), tail);
        Merge(a + [head], tail);
      }
    }
  }

  /** Cutting a unique-keyed array in two gives two unique-keyed parts with
      disjoint keys, which look a key up as the whole does. */
  lemma {:induction false} Slices(cols: Columns, cut: nat, k: string)
    requires UniqueKeys(cols) && cut <= |cols|
    ensures UniqueKeys(cols[..cut]) && UniqueKeys(cols[cut..])
    ensures Keys(cols[..cut]) !! Keys(cols[cut..])
    ensures Keys(cols) == Keys(cols[..cut]) + Keys(cols[cut..])
    ensures k in Keys(cols[..cut]) ==> Get(cols[..cut], k) == Get(cols, k)
    ensures k in Keys(cols[cut..]) ==> Get(cols[cut..], k) == Get(cols, k)
    decreases cut
  {
    if cut == 0 {
      assert cols[..cut] == [] && cols[cut..] == cols;
    } else {
      var tail := cols[1..];
      assert cols[..cut][1..] == tail[..cut - 1];
      assert cols[cut..] == tail[cut - 1..];
      Slices(tail, cut - 1, k);
    }
  }

  /** array_merge(front, added, back) for the two parts of `rel` cut at
      `cut`, when `added` shares no key with `rel`: `added` is spliced in at
      the cut. */
  lemma SpliceDisjoint(rel: Columns, added: Columns, cut: nat)
    requires UniqueKeys(rel) && UniqueKeys(added) && Keys(rel) !! Keys(added) && cut <= |rel|
    ensures Merge(Merge(Merge([], rel[..cut]), added), rel[cut..]) == rel[..cut] + added + rel[cut..]
  {
    var front, back := rel[..cut], rel[cut..];
    Slices(rel, cut, "");
    MergeDisjoint([], front);
    assert [] + front == front;
    MergeDisjoint(front, added);
    KeysAppend(front, added);
    UniqueAppend(front, added);
    MergeDisjoint(front + added, back);
  }

  /** array_merge(front, added, back) for the two parts of `rel` cut at
      `cut`, looking up one key: a key of `rel` only keeps its value, a key
      of `added` only takes its value from `added`. */
  lemma SpliceGetKey(rel: Columns, added: Columns, cut: nat, k: string)
    requires UniqueKeys(rel) && UniqueKeys(added) && cut <= |rel|
    ensures var r := Merge(Merge(Merge([], rel[..cut]), added), rel[cut..]);
      && (k in Keys(rel) && k !in Keys(added) ==> Get(r, k) == Get(rel, k))
      && (k in Keys(added) && k !in Keys(rel) ==> Get(r, k) == Get(added, k))
  {
    var front, back := rel[..cut], rel[cut..];
    Slices(rel, cut, k);
    var m1 := Merge([], front);
    var m2 := Merge(m1, added);
    MergeGet(m2, back, k);
    MergeGet(m1, added, k);
    MergeGet([], front, k);
  }

  /** array_merge(front, added, back) for the two parts of `rel` cut at
      `cut`: each key of either array occurs once. */
  lemma SpliceKeys(rel: Columns, added: Columns, cut: nat)
    requires UniqueKeys(rel) && cut <= |rel|
    ensures var r := Merge(Merge(Merge([], rel[..cut]), added), rel[cut..]);
      UniqueKeys(r) && Keys(r) == Keys(rel) + Keys(added)
  {
    var front, back := rel[..cut], rel[cut..];
    assert Keys(rel) == Keys(front) + Keys(back) by { Slices(rel, cut, ""); }
    var m1 := Merge([], front);
    assert UniqueKeys(m1) && Keys(m1) == Keys(front) by { MergeKeys([], front); }
    var m2 := Merge(m1, added);
    assert UniqueKeys(m2) && Keys(m2) == Keys(front) + Keys(added) by { MergeKeys(m1, added); }
    assert UniqueKeys(Merge(m2, back)) && Keys(Merge(m2, back)) == Keys(m2) + Keys(back) by { MergeKeys(m2, back); }
  }

  /** array_merge(front, added, back) for the two parts of `rel` cut at
      `cut`: each key occurs once, a key of `rel` only keeps its value, and a
      key of `added` only takes its value from `added`. */
  lemma SpliceGet(rel: Columns, added: Columns, cut: nat)
    requires UniqueKeys(rel) && UniqueKeys(added) && cut <= |rel|
    ensures var r := Merge(Merge(Merge([], rel[..cut]), added), rel[cut..]);
      && UniqueKeys(r) && Keys(r) == Keys(rel) + Keys(added)
      && (forall k :: k in Keys(rel) && k !in Keys(added) ==> Get(r, k) == Get(rel, k))
      && (forall k :: k in Keys(added) && k !in Keys(rel) ==> Get(r, k) == Get(added, k))
  {
    SpliceKeys(rel, added, cut);
    forall k | k in Keys(rel) + Keys(added) {
      SpliceGetKey(rel, added, cut, k);
    }
  }

  /** Relabelling title and date adds at most those two keys. */
  lemma Relabel(columns: Columns)
    requires UniqueKeys(columns)
    ensures var relabelled := Assign(Assign(columns, "title", "Event"), "date", "Published Date");
      && UniqueKeys(relabelled) && |relabelled| >= |columns|
      && Keys(relabelled) == Keys(columns) + {"title", "date"}
      && Get(relabelled, "title") == Some("Event") && Get(relabelled, "date") == Some("Published Date")
      && (forall k :: k != "title" && k != "date" ==> Get(relabelled, k) == Get(columns, k))
  {
    assert "title" != "date" by { assert |"title"| == 5 && |"date"| == 4; }
    AssignSpec(columns, "title", "Event");
    AssignSpec(Assign(columns, "title", "Event"), "date", "Published Date");
  }

  /** Neither title nor date is one of the event columns. */
  lemma PluginKeysDistinct(recurring: bool)
    ensures {"title", "date"} !! Keys(NewColumns(recurring))
  {
    NewColumnsKeys(recurring);
    assert "title"[0] == 't' && "date"[0] == 'd' && "event_start"[0] == 'e' && "event_end"[0] == 'e' && "recurring"[0] == 'r';
  }

  /** The usual case: on a columns array with at least two entries and none of
      the event columns yet, the event columns are inserted right after the
      second entry (the title, after the checkbox), the title and date are
      relabelled in their places, and nothing else moves. */
  lemma EditEventColumnsInserts(columns: Columns, recurring: bool)
    requires UniqueKeys(columns) && |columns| >= 2
    requires Keys(columns) !! Keys(NewColumns(recurring))
    ensures var relabelled := Assign(Assign(columns, "title", "Event"), "date", "Published Date");
      && |relabelled| >= 2
      && EditEventColumns(columns, recurring) == relabelled[..2] + NewColumns(recurring) + relabelled[2..]
  {
    var relabelled := Assign(Assign(columns, "title", "Event"), "date", "Published Date");
    Relabel(columns);
    NewColumnsKeys(recurring);
    PluginKeysDistinct(recurring);
    SpliceDisjoint(relabelled, NewColumns(recurring), 2);
  }

  /** Whatever the input: the result has every key of the input plus title,
      date and the event columns, each once; title reads "Event" and date
      "Published Date"; every other input key that is not an event column
      keeps its label, and an event column that was not in the input gets the
      plugin's label. */
  lemma EditEventColumnsLabels(columns: Columns, recurring: bool)
    requires UniqueKeys(columns)
    ensures var r := EditEventColumns(columns, recurring);
      && UniqueKeys(r)
      && Keys(r) == Keys(columns) + {"title", "date"} + Keys(NewColumns(recurring))
      && Get(r, "title") == Some("Event") && Get(r, "date") == Some("Published Date")
      && (forall k :: k in Keys(columns) && k != "title" && k != "date" && k !in Keys(NewColumns(recurring)) ==>
            Get(r, k) == Get(columns, k))
      && (forall k :: k in Keys(NewColumns(recurring)) && k !in Keys(columns) ==> Get(r, k) == Get(NewColumns(recurring), k))
  {
    var relabelled := Assign(Assign(columns, "title", "Event"), "date", "Published Date");
    var cut := if |relabelled| < 2 then |relabelled| else 2;
    Relabel(columns);
    NewColumnsKeys(recurring);
    PluginKeysDistinct(recurring);
    SpliceGet(relabelled, NewColumns(recurring), cut);
  }

  /** The default columns of a post type without title changes: checkbox,
      title and date. */
  lemma DefaultColumnsExample()
    ensures EditEventColumns([("cb", "<input type=\"checkbox\" />"), ("title", "Title"), ("date", "Date")], true)
      == [("cb", "<input type=\"checkbox\" />"), ("title", "Event"),
          ("event_start", "Starts"), ("event_end", "Ends"), ("recurring", "Recurring Series"),
          ("date", "Published Date")]
  {
    var cb := ("cb", "<input type=\"checkbox\" />");
    var cols := [cb, ("title", "Title"), ("date", "Date")];
    assert "cb" != "title" && "cb" != "date" && "title" != "date" by {
      assert |"cb"| == 2 && |"title"| == 5 && |"date"| == 4;
    }
    assert cols[1..] == [("title", "Title"), ("date", "Date")];
    assert cols[1..][1..] == [("date", "Date")];
    KeysSingle(("date", "Date"));
    assert Keys(cols) == {"cb", "title", "date"} && UniqueKeys(cols);
    NewColumnsKeys(true);
    PluginKeysDistinct(true);
    assert "cb" !in Keys(NewColumns(true)) by {
      assert |"cb"| == 2 && |"event_start"| == 11 && |"event_end"| == 9 && |"recurring"| == 9;
    }
    var titled := [cb, ("title", "Event"), ("date", "Date")];
    assert Assign(cols[1..], "title", "Event") == [("title", "Event")] + cols[2..];
    assert Assign(cols, "title", "Event") == titled;
    assert titled[1..] == [("title", "Event"), ("date", "Date")];
    assert titled[1..][1..] == [("date", "Date")];
    assert Assign(titled[1..][1..], "date", "Published Date") == [("date", "Published Date")];
    var relabelled := [cb, ("title", "Event"), ("date", "Published Date")];
    assert Assign(titled, "date", "Published Date") == relabelled;
    EditEventColumnsInserts(cols, true);
    assert relabelled[..2] == [cb, ("title", "Event")] && relabelled[2..] == [("date", "Published Date")];
  }
}
