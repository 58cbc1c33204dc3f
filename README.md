# BE Events Calendar: the recurrence engine

This project models the recurrence engine of the `BE_Events_Calendar` WordPress
plugin (`inc/events.php`) and proves what it promises.

- **Series expansion.** A published, recurring, parentless *series master* is
  expanded into child events by `generate_events`. A bounded `while` loop steps
  the start and end by a day, a week or a month. The master's own start is
  skipped, and in regenerating mode only future starts are created. The insert
  hooks are detached while the children are inserted. The master's
  `be_generated_events` flag is latched at the end.
- **Regeneration.** `regenerate_events` deletes the master's future children,
  clears both flags and runs the generator again in regenerating mode.
- **Timestamp check.** `is_timestamp` is the gate both dates must pass. A value
  passes when it is an int, or a string that survives the round trip
  `(string)(int)`.
- **Hook guard.** `add_insert_post_hooks` / `remove_insert_post_hooks` attach
  and detach the two `wp_insert_post` callbacks. The trash/untrash actions
  detach them around the status change.
- **Admin filters.** `sort_events` rewrites the list query when the events list
  is sorted by start or end. `edit_event_columns` relabels the title and date
  columns and inserts the event columns after the second column.

Files:

- **`Php.dfy`** models the PHP scalars the engine reads from post meta (int,
  string, bool, null) with their semantics for decimal strings:
  - the `(int)` cast: leading whitespace, an optional sign, the digit prefix,
    saturation at the 64-bit bounds;
  - the `(string)` rendering of an int;
  - `empty()` and truthiness.
  - PHP ints are 64-bit, so timestamps have type `Int64`.
- **`Timestamps.dfy`** holds `is_timestamp`, a characterisation of exactly the
  strings it accepts, and the examples that follow.
- **`Recurrence.dfy`** gives the loop of `generate_events` as a function
  (`Expand`) and proves its properties:
  - the iteration bound;
  - which starts create a child;
  - the unknown-period case;
  - ordering.
  - The host's date arithmetic (`strtotime('+1 Days')`, …), the
    `be_calendar_recurrance_start/end` filters and the
    `be_calendar_recurring_limit` filter are parameters (`Policy`).
- **`Posts.dfy`** defines the post store (posts by id, the next id, the
  attached callbacks). It gives `generate_events`, `regenerate_events` and the
  `wp_insert_post` action as functions from the store before to the store
  after, with lemmas about them.
- **`Plugin.dfy`** holds the class `EventsCalendar`, whose fields are that
  store.
  - The methods work step by step as the source does: an insert loop with
    hooks detached, a deletion loop over the query result, flag writes, and
    hook toggling.
  - Each method is proved to leave exactly the state the matching function of
    `Posts` describes.
- **`AdminColumns.dfy`** holds `sort_events` (query vars as a map) and
  `edit_event_columns` (an ordered array of string keys, with `$a[$k] = $v`
  and `array_merge`).

The loop counter starts at 1 and the first turn is the master's own start,
so a pass creates at most limit - 2 children. The stop time itself is
excluded, so a daily series whose stop is three days after its start gets
two children.

The callbacks run on `wp_insert_post` in the order they were added,
`generate_events` first and then `regenerate_events`. Both receive only the
post id, so `$regenerating` is false on that path.

## Model

| member | source | states |
|---|---|---|
| Timestamps.IsTimestamp | inc/events.php:760-767 | any int passes; true, false and null never pass; an accepted string is non-empty and starts with neither '+' nor whitespace |
| Timestamps.StringTimestampIff | inc/events.php:760-767 | a string passes exactly when it is a canonical decimal numeral ("0", "n" or "-n" for n with no leading zero) whose value fits a 64-bit int (both directions) |
| Timestamps.CastOfRender | inc/events.php:762-764 | for every 64-bit int, `(int)` of its `(string)` rendering gives the int back, so every int rendering survives the round trip |
| Timestamps.RenderOfValue | inc/events.php:762-764 | rendering the value of a canonical numeral gives the numeral back |
| Timestamps.AcceptsSample | inc/events.php:760-767 | "1700000000" passes |
| Timestamps.AcceptsZero | inc/events.php:760-767 | "0" passes |
| Timestamps.RejectsGarbage | inc/events.php:760-767 | "12abc" and "abc" fail |
| Timestamps.RejectsNonCanonicalZeros | inc/events.php:760-767 | "007" and "-0" fail |
| Timestamps.RejectsSignsAndPadding | inc/events.php:760-767 | "+5", " 1" and "" fail |
| Timestamps.RangeBoundaryExamples | inc/events.php:764-766 | "9223372036854775807" passes and "9223372036854775808" fails: the cast saturates, so the round trip fails and the explicit range tests never decide |
| Recurrence.ParsePeriod | inc/events.php:717-733 | the switch recognises exactly 'daily', 'weekly' and 'monthly'; anything else leaves the dates unchanged |
| Recurrence.ExpandAdvance | inc/events.php:670-741 | one turn of the loop keeps "occurrences created so far followed by those still to come is the whole pass", whether or not the turn creates a child |
| Recurrence.ExpandLength | inc/events.php:669-740 | from counter i the loop creates at most limit - i occurrences, and one fewer when it is at the master's own start |
| Recurrence.OccurrencesBound | inc/events.php:668-740 | a pass creates at most max(0, limit - 2) children |
| Recurrence.ExpandAdmissible | inc/events.php:670-674 | every created occurrence has a start different from the master's, before the stop time, and after the current time when regenerating |
| Recurrence.UnknownPeriodExpandsToNothing | inc/events.php:717-737 | for a period other than daily, weekly or monthly, with no start filter, the start never moves and nothing is created |
| Recurrence.ExpandIncreasing | inc/events.php:670-741 | for a known period, a date library that moves time forward and no start filter, the created starts are strictly increasing, so no two children share a start |
| Recurrence.DailyThreeDays | inc/events.php:668-741 | a daily master with a stop three days later gets exactly two children, one and two days later, each with the master's duration |
| Posts.Prepare | inc/events.php:620-662 | when the pass runs, the master exists and the pass carries its id, the regenerating flag and the current time |
| Posts.GenerateRunsIff | inc/events.php:620-662 | the pass runs exactly when recurrence is supported and the post is an events post, published, not yet generated, parentless, recurring, and its stop and start both pass is_timestamp; otherwise the store is unchanged |
| Posts.AddChildrenSnoc | inc/events.php:684-688 | inserting one more child adds exactly that child under the next id |
| Posts.PassEffect | inc/events.php:664-747 | after a pass, the master is latched generated and otherwise unchanged and both callbacks are attached; other posts are untouched; the new posts are exactly the ids from nextId on, one child per occurrence in order; ids stay valid |
| Posts.GeneratedChildren | inc/events.php:668-688 | every created post is a published events post whose parent is the master, with be_recurring '0', a start different from the master's and before the stop time, and after the current time when regenerating; at most limit - 2 are created |
| Posts.UnknownPeriodOnlyLatches | inc/events.php:717-747 | a master with an unknown period and no start filter gets no children but is still marked generated |
| Posts.GenerateIdempotent | inc/events.php:631-634 | a second generate_events after a first one, in either mode, changes nothing |
| Posts.GenerateKeeps | inc/events.php:620-748 | generate_events deletes nothing, changes no existing post other than the master, and keeps ids valid |
| Posts.RegenerateDeletesOnlyFutureChildren | inc/events.php:786-811 | when it runs, an existing post survives exactly when it is the master or not one of the master's children starting after `time`; survivors other than the master are unchanged; be_regenerate_events ends cleared |
| Posts.RegenerateSkips | inc/events.php:776-784 | not an events post, recurrence unsupported, or be_regenerate_events unset: nothing changes |
| Posts.DetachedInsertRunsNothing | inc/events.php:78-82 | with both callbacks detached, wp_insert_post changes nothing |
| Posts.InsertPostKeepsHooks | inc/events.php:665-744 | an insert with both callbacks attached leaves them attached |
| Plugin.EventsCalendar.constructor | inc/events.php:75-76 | init starts with no posts and both callbacks attached |
| Plugin.EventsCalendar.AddInsertPostHooks | inc/events.php:607-610 | both callbacks are attached; nothing else changes |
| Plugin.EventsCalendar.RemoveInsertPostHooks | inc/events.php:597-600 | both callbacks are detached; nothing else changes |
| Plugin.EventsCalendar.InsertPost | inc/events.php:684 | the post gets the next id; the callbacks that fire are the attached ones |
| Plugin.EventsCalendar.DeletePost | inc/events.php:803 | the post is removed and nothing else changes |
| Plugin.EventsCalendar.GenerateEvents | inc/events.php:620-748 | the new state is GenerateOutcome of the old one: the early exits, or the pass |
| Plugin.EventsCalendar.RunPass | inc/events.php:664-747 | detach, create the children, re-attach and latch: posts, next id and callbacks as PassOutcome states |
| Plugin.EventsCalendar.CreateChildren | inc/events.php:668-741 | the loop inserts exactly the children of Occurrences, with consecutive ids, while no callback is attached |
| Plugin.EventsCalendar.InsertChild | inc/events.php:676-688 | one insert of the loop: the child for the occurrence under the next id, which becomes the last created id |
| Plugin.EventsCalendar.RegenerateEvents | inc/events.php:775-812 | the new state is RegenerateOutcome of the old one: the deletion loop removes exactly the future children other than the master, then both flags are cleared, then generate_events(id, true) runs |
| Plugin.EventsCalendar.OnInsertPost | inc/events.php:607-610 | the attached callbacks run, generate_events first, with `$regenerating` false |
| Plugin.EventsCalendar.SavePost | inc/events.php:607-610 | insert a post, then fire wp_insert_post on it |
| Plugin.EventsCalendar.UpdatePost | inc/events.php:607-610 | update a post, then fire wp_insert_post on it; an unknown id changes nothing |
| Plugin.EventsCalendar.TrashPost | inc/events.php:78-82 | trashing changes only the status and leaves both callbacks attached: no children are generated or deleted |
| Plugin.EventsCalendar.UntrashPost | inc/events.php:78-82 | restoring changes only the status and leaves both callbacks attached: no children are generated or deleted |
| AdminColumns.SortEvents | inc/events.php:290-324 | a query that is not for events is returned unchanged; keys other than meta_key and orderby are never added, removed or changed |
| AdminColumns.SortEventsRewrites | inc/events.php:293-321 | orderby event_start gives meta_key be_event_start; event_end gives be_event_end; both with orderby meta_value_num; anything else is left alone; at most one rewrite applies |
| AdminColumns.SortEventsIdempotent | inc/events.php:290-324 | filtering twice is the same as filtering once |
| AdminColumns.AssignSpec | inc/events.php:156-157 | `$columns[$k] = $v` sets the key, changes no other key, keeps keys unique and appends a new key at the end |
| AdminColumns.MergeKeys | inc/events.php:171 | array_merge has the keys of both arrays |
| AdminColumns.MergeGet | inc/events.php:171 | array_merge: the second array's value wins, otherwise the first's |
| AdminColumns.MergeDisjoint | inc/events.php:171 | array_merge of arrays with disjoint keys is their concatenation |
| AdminColumns.EditEventColumnsInserts | inc/events.php:153-174 | on columns with at least two entries and no event columns, the event columns go right after the second entry, title and date are relabelled in place, and nothing else moves |
| AdminColumns.EditEventColumnsLabels | inc/events.php:153-174 | for any input, the result has the input's keys plus title, date and the event columns, each once; title reads "Event" and date "Published Date"; other keys keep their labels; an event column not in the input gets the plugin's label |
| AdminColumns.DefaultColumnsExample | inc/events.php:153-174 | checkbox, title, date with recurring supported gives checkbox, Event, Starts, Ends, Recurring Series, Published Date |

## Left out

Inputs and host behaviour:

- **Date arithmetic.** `strtotime('+1 Days'/'+1 Weeks'/'+1 Months'/'+1 Years', t)` is a parameter (`DateLibrary`) because it depends on the calendar, the time zone and daylight saving. The only assumption, made only where ordering is proved, is that it moves time strictly forward. `strtotime` returning false is not modelled.
- **Filters and theme support.** The `apply_filters` extension points are parameters of `Policy`: the iteration limit, the extra meta keys and the two date filters. So are theme support for recurring events and event categories. The filters and the theme lookup are host code.
- **Clocks.** `current_time('timestamp')` (generation) and `time()` (deletion) are two separate integer inputs, `now` and `time`.
- **Meta comparison.** The deletion query compares be_event_start numerically. WordPress's `meta_query` compares as CHAR by default, which agrees only for timestamps of equal length.
- **Post status in the deletion query.** Not modelled. Every child whose start is after `time` is found.
- **Untrash status.** The status a post is restored to on untrash is a parameter, because WordPress chooses it.

Post storage:

- **Inserts cannot fail.** `wp_insert_post` and the meta writes always succeed, and a child is created with all its meta in one step. The failure branch (`$event_id` 0) is not modelled.
- **Extra meta keys.** They are assumed disjoint from the plugin's own keys. A missing key is copied as "".
- **Event categories.** Category terms are copied as a set of slugs. `get_the_terms` errors are not modelled.
- **Meta values.** They are kept as PHP values as written. WordPress's string serialisation of stored meta is not modelled. be_generated_events is a boolean.

Values:

- **Floats.** is_timestamp's float branch and float notation in strings ("1e9") are not modelled: post meta holds strings and ints.
- **Non-numeric end.** A non-numeric be_event_end is read through the `(int)` cast. PHP 8's strtotime would raise a type error on it.
- Posts.Prepare: when be_recurring_end is empty and be_event_start is non-empty but not numeric ("abc", " "), inc/events.php:657 passes the string to strtotime, which under PHP 8 raises a TypeError that ends the request, so regenerate_events does not run either. The model reads the start through the `(int)` cast and returns at the start's is_timestamp gate: a silent no-op, not a fatal error.
- AdminColumns.SortEvents: loose comparison follows PHP 8. Under PHP 7 an int-valued post_type or orderby of 0 would equal 'events' or 'event_start'; int-valued query vars are taken to compare as PHP 8 does.
- **Array-valued inputs.** Array-valued query vars in sort_events and integer column keys in edit_event_columns are not modelled.
- **Query-var order.** The order of query vars in sort_events is not kept, because the vars are a map. The order of columns is kept.

Other code and the runtime:

- **save_post callbacks.** `metabox_save` and other save_post callbacks that `wp_insert_post` would run for each child are not part of this model.
- **Duplicate is_timestamp.** The file declares is_timestamp twice with identical bodies (inc/events.php:760-767 and 852-859). PHP rejects that as a redeclaration. One function is modelled.
- **Everything else.** Post type and taxonomy registration, metabox rendering, `manage_event_columns`, `event_query` and `plugin.php` are registration, rendering and I/O outside the engine.
- **Concurrency.** Two requests racing on the be_generated_events flag are not modelled.
