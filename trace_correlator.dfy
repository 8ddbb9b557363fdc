/**
 * dotnet-dtracer's trace correlator: activity start and stop events build a
 * table of open activities, each a tree node with its children; a periodic
 * prune drops the activities that stopped more than a second ago and
 * reports the roots among them.
 */
module TraceCorrelator {
  import opened Common
  import opened TraceArguments

  /** TimeSpan.FromSeconds(1), in ticks of 100 ns. */
  const PruneLag: int := 10_000_000

  /** One activity; times are tick counts. */
  class ActivityTreeItem {
    const id: Option<string>
    var parentId: Option<string>
    var description: string
    var startTime: int
    var duration: int
    var stopped: bool
    var children: seq<ActivityTreeItem>

    constructor (id: Option<string>, parentId: Option<string>, description: string, startTime: int)
      ensures this.id == id && this.parentId == parentId && this.description == description
      ensures this.startTime == startTime && duration == 0
      ensures !stopped && children == []
    {
      this.id := id;
      this.parentId := parentId;
      this.description := description;
      this.startTime := startTime;
      duration := 0;
      stopped := false;
      children := [];
    }
  }

  /** The prune rule: stopped, and ended more than the lag before `now`. */
  predicate Expired(item: ActivityTreeItem, now: int)
    reads item
  {
    item.stopped && now - (item.startTime + item.duration) > PruneLag
  }

  /** The events the correlator reacts to. */
  datatype EventKind = RequestStart | RequestStop | HttpOutStart | HttpOutStop | Ignored

  /** Which event an (event name, listener event name) pair is. */
  function Classify(eventName: string, listenerEventName: Option<string>): (k: EventKind)
    ensures k != Ignored ==> listenerEventName.Some?
  {
    if eventName == "Activity1Start/Start" then
      if listenerEventName == Some("Microsoft.AspNetCore.Hosting.BeginRequest") then RequestStart else Ignored
    else if eventName == "Activity1Stop/Stop" then
      if listenerEventName == Some("Microsoft.AspNetCore.Hosting.EndRequest") then RequestStop else Ignored
    else if eventName == "Activity2Start/Start" then
      if listenerEventName == Some("System.Net.Http.HttpRequestOut.Start") then HttpOutStart else Ignored
    else if eventName == "Activity2Stop/Stop" then
      if listenerEventName == Some("System.Net.Http.HttpRequestOut.Stop") then HttpOutStop else Ignored
    else Ignored
  }

  /** The payload keys each event reads. */
  function SchemaOf(k: EventKind): (sc: Schema)
    ensures WellFormed(sc) && "ActivityId" in sc.textKeys
    ensures (k == RequestStart || k == HttpOutStart) <==> sc.kind == StartTime
  {
    match k
    case RequestStart => BeginRequest
    case HttpOutStart => HttpRequestOutStart
    case _ => ActivityStop
  }

  /** The description a start event gives its activity. */
  function DescriptionOf(k: EventKind, f: Fields): string {
    if k == RequestStart then RequestDescription(Text(f, "Method"), Text(f, "Host"), Text(f, "Path"))
    else HttpClientDescription
  }

  class Correlator {
    /** `_openActivities`. */
    var open: map<string, ActivityTreeItem>

    /** Every open activity is stored under its own id. */
    ghost predicate Valid()
      reads this
    {
      forall k :: k in open ==> open[k].id == Some(k)
    }

    constructor ()
      ensures Valid() && open == map[]
    {
      open := map[];
    }

    /** The first half of a start: overwrite the description, parent and
        start time of an open activity, or open the new one. */
    method Upsert(item: ActivityTreeItem)
      requires Valid() && item.id.Some?
      modifies this, if item.id.value in open then {open[item.id.value]} else {}
      ensures Valid()
      ensures var k := item.id.value;
        && k in open
        && open[k].description == item.description
        && open[k].parentId == item.parentId
        && open[k].startTime == item.startTime
      ensures var k := item.id.value;
        old(k in open) ==>
          && open == old(open)
          && open[k].children == old(open[k].children)
          && open[k].duration == old(open[k].duration)
          && open[k].stopped == old(open[k].stopped)
      ensures old(item.id.value !in open) ==> open == old(open)[item.id.value := item]
      ensures item.description == old(item.description) && item.parentId == old(item.parentId)
      ensures item.startTime == old(item.startTime)
    {
      var k := item.id.value;
      if k in open {
        var existing := open[k];
        existing.description := item.description;
        existing.parentId := item.parentId;
        existing.startTime := item.startTime;
      } else {
        open := open[k := item];
      }
    }

    /** The second half of a start: append `child` to the children of the
        activity `parentId`, opening a placeholder "Unknown" parent with the
        child's start time when none is open. */
    method AttachToParent(parentId: string, child: ActivityTreeItem)
      requires Valid()
      modifies this, if parentId in open then {open[parentId]} else {}
      ensures Valid()
      ensures parentId in open
      ensures old(parentId in open) ==>
        && open == old(open)
        && open[parentId].children == old(open[parentId].children) + [child]
        && open[parentId].parentId == old(open[parentId].parentId)
        && open[parentId].description == old(open[parentId].description)
        && open[parentId].startTime == old(open[parentId].startTime)
        && open[parentId].duration == old(open[parentId].duration)
        && open[parentId].stopped == old(open[parentId].stopped)
      ensures old(parentId !in open) ==>
        && fresh(open[parentId])
        && open == old(open)[parentId := open[parentId]]
        && open[parentId].id == Some(parentId)
        && open[parentId].parentId == None
        && open[parentId].description == "Unknown"
        && open[parentId].startTime == child.startTime
        && open[parentId].duration == 0 && !open[parentId].stopped
        && open[parentId].children == [child]
    {
      var parent;
      if parentId in open {
        parent := open[parentId];
      } else {
        parent := new ActivityTreeItem(Some(parentId), None, "Unknown", child.startTime);
        open := open[parentId := parent];
      }
      parent.children := parent.children + [child];
    }

    /**
     * OnStartActivity as written: the started item itself, not the open
     * entry that was updated in its place, is appended to the parent's
     * children. A null id throws before anything changes.
     */
    method OnStartActivityAsWritten(item: ActivityTreeItem) returns (r: Status)
      requires Valid()
      modifies this, open.Values, item
      ensures Valid()
      ensures item.id.None? ==> r == Fail(ArgumentNull) && open == old(open)
      ensures item.id.Some? ==> r == Ok && item.id.value in open
      ensures item.id.Some? && item.parentId.Some? ==>
        var p := item.parentId.value;
        p in open && open[p].children != [] && open[p].children[|open[p].children| - 1] == item
      ensures item.id.Some? && old(item.id.value in open) && item != old(open[item.id.value]) ==>
        open[item.id.value] != item
    {
      if item.id.None? {
        return Fail(ArgumentNull);
      }
      Upsert(item);
      if item.parentId.Some? {
        AttachToParent(item.parentId.value, item);
      }
      r := Ok;
    }

    /**
     * OnStartActivity as intended: the open entry for the id, whether it
     * was just inserted or updated in place, becomes the parent's last
     * child, so the tree links the node that later receives the stop.
     */
    method OnStartActivity(item: ActivityTreeItem) returns (r: Status)
      requires Valid()
      modifies this, item
      modifies if item.id.Some? && item.id.value in open then {open[item.id.value]} else {}
      modifies if item.parentId.Some? && item.parentId.value in open then {open[item.parentId.value]} else {}
      ensures Valid()
      ensures item.id.None? ==> r == Fail(ArgumentNull) && open == old(open)
      ensures item.id.Some? ==> r == Ok
      ensures item.id.Some? ==>
        var k := item.id.value;
          && k in open
          && open[k] == (if old(k in open) then old(open[k]) else item)
          && open[k].description == old(item.description)
          && open[k].parentId == old(item.parentId)
          && open[k].startTime == old(item.startTime)
      ensures item.id.Some? && item.parentId.Some? ==>
        var k := item.id.value;
          var p := item.parentId.value;
          p in open && open[p].children != [] && open[p].children[|open[p].children| - 1] == open[k]
      ensures item.id.Some? && item.parentId.Some? && item.parentId.value != item.id.value ==>
        var k := item.id.value;
          var p := item.parentId.value;
          && (p in old(open) ==>
                && open[p] == old(open)[p] && open[p].children == old(open[p].children) + [open[k]]
                && open[p].description == old(open[p].description) && open[p].parentId == old(open[p].parentId)
                && open[p].startTime == old(open[p].startTime)
                && open[p].duration == old(open[p].duration) && open[p].stopped == old(open[p].stopped))
          && (p !in old(open) ==>
                && open[p].description == "Unknown" && open[p].parentId.None?
                && open[p].startTime == old(item.startTime) && open[p].children == [open[k]])
      ensures item.id.Some? ==>
        var k := item.id.value;
          open.Keys == old(open.Keys) + {k} + (if item.parentId.Some? then {item.parentId.value} else {})
      ensures item.id.Some? && old(item.id.value in open) && item.parentId != item.id ==>
        var k := item.id.value;
          && open[k].children == old(open[k].children)
          && open[k].duration == old(open[k].duration) && open[k].stopped == old(open[k].stopped)
      ensures item.id.Some? ==>
        forall j :: j in old(open) && j != item.id.value && Some(j) != item.parentId ==> open[j] == old(open)[j]
      ensures item.id.None? ==> unchanged(this) && unchanged(old(open).Values)
      ensures item.parentId == old(item.parentId)
    {
      if item.id.None? {
        return Fail(ArgumentNull);
      }
      var k := item.id.value;
      Upsert(item);
      var node := open[k];
      if item.parentId.Some? {
        AttachToParent(item.parentId.value, node);
      }
      r := Ok;
    }

    /** OnStopActivity: set the duration and mark the activity stopped. */
    static method OnStopActivity(item: ActivityTreeItem, duration: int)
      modifies item
      ensures item.duration == duration && item.stopped
      ensures item.parentId == old(item.parentId) && item.description == old(item.description)
      ensures item.startTime == old(item.startTime) && item.children == old(item.children)
    {
      item.duration := duration;
      item.stopped := true;
    }

    /** The lookup of a stop event: a null id throws, an id that is not
        open is ignored. */
    method StopActivity(id: Option<string>, duration: int) returns (r: Status)
      requires Valid()
      modifies if id.Some? && id.value in open then {open[id.value]} else {}
      ensures id.None? <==> r == Fail(ArgumentNull)
      ensures id.Some? ==> r == Ok
      ensures id.Some? && id.value in open ==> open[id.value].stopped && open[id.value].duration == duration
      ensures id.Some? && id.value in open ==>
        var e := open[id.value];
        && e.description == old(e.description) && e.parentId == old(e.parentId)
        && e.startTime == old(e.startTime) && e.children == old(e.children)
    {
      if id.None? {
        return Fail(ArgumentNull);
      }
      if id.value in open {
        OnStopActivity(open[id.value], duration);
      }
      r := Ok;
    }

    /**
     * AddEvent: classify the event, scan its Arguments payload (absent when
     * the payload is not a list of dictionaries), then start or stop the
     * activity it names.
     */
    method AddEvent(eventName: string, listenerEventName: Option<string>, arguments: Option<seq<Arg>>)
      returns (r: Status)
      requires Valid()
      modifies this, open.Values
      ensures Valid()
      ensures Classify(eventName, listenerEventName) == Ignored || arguments.None? ==>
        r == Ok && open == old(open) && forall j :: j in old(open) ==> unchanged(old(open)[j])
      ensures var k := Classify(eventName, listenerEventName);
        k != Ignored && arguments.Some? && Scan(SchemaOf(k), arguments.value).Failure? ==>
          && r == Fail(Scan(SchemaOf(k), arguments.value).error) && open == old(open)
          && forall j :: j in old(open) ==> unchanged(old(open)[j])
      ensures var k := Classify(eventName, listenerEventName);
        k != Ignored && arguments.Some? && Scan(SchemaOf(k), arguments.value).Success? ==>
          var f := Scan(SchemaOf(k), arguments.value).value;
          var id := Text(f, "ActivityId");
          && (id.None? <==> r == Fail(ArgumentNull))
          && (id.Some? ==> r == Ok)
          && (id.None? ==> open == old(open) && forall j :: j in old(open) ==> unchanged(old(open)[j]))
      ensures var k := Classify(eventName, listenerEventName);
        k != Ignored && arguments.Some? && Scan(SchemaOf(k), arguments.value).Success? &&
        (k == RequestStart || k == HttpOutStart) && Text(Scan(SchemaOf(k), arguments.value).value, "ActivityId").Some? ==>
          var f := Scan(SchemaOf(k), arguments.value).value;
          var id := Text(f, "ActivityId").value;
          var parent := Text(f, "ActivityParentId");
          && open.Keys == old(open.Keys) + {id} + (if parent.Some? then {parent.value} else {})
          && (id in old(open) ==> open[id] == old(open)[id])
          && (id in old(open) && parent != Some(id) ==>
                && open[id].children == old(open[id].children)
                && open[id].duration == old(open[id].duration) && open[id].stopped == old(open[id].stopped))
          && (id !in old(open) ==> fresh(open[id]))
          && open[id].description == DescriptionOf(k, f)
          && open[id].parentId == parent
          && open[id].startTime == f.ticks
          && (parent.Some? ==>
                open[parent.value].children != [] && open[parent.value].children[|open[parent.value].children| - 1] == open[id])
          && (parent.Some? && parent.value != id && parent.value in old(open) ==>
                var q := open[parent.value];
                && q == old(open)[parent.value]
                && q.children == old(q.children) + [open[id]]
                && q.description == old(q.description) && q.parentId == old(q.parentId)
                && q.startTime == old(q.startTime) && q.duration == old(q.duration) && q.stopped == old(q.stopped))
          && (parent.Some? && parent.value != id && parent.value !in old(open) ==>
                open[parent.value].description == "Unknown" && open[parent.value].children == [open[id]])
          && (forall j :: j in old(open) && j != id && Some(j) != parent ==>
                open[j] == old(open)[j] && unchanged(old(open)[j]))
      ensures var k := Classify(eventName, listenerEventName);
        k != Ignored && arguments.Some? && Scan(SchemaOf(k), arguments.value).Success? &&
        (k == RequestStop || k == HttpOutStop) && Text(Scan(SchemaOf(k), arguments.value).value, "ActivityId").Some? ==>
          var f := Scan(SchemaOf(k), arguments.value).value;
          var id := Text(f, "ActivityId").value;
          && open == old(open)
          && (id in open ==> open[id].stopped && open[id].duration == f.ticks)
          && (id in open ==>
                var e := open[id];
                && e.description == old(e.description) && e.parentId == old(e.parentId)
                && e.startTime == old(e.startTime) && e.children == old(e.children))
          && (forall j :: j in old(open) && j != id ==> unchanged(old(open)[j]))
    {
      var kind := Classify(eventName, listenerEventName);
      if kind == Ignored || arguments.None? {
        return Ok;
      }
      var fields := ReadArguments(SchemaOf(kind), arguments.value);
      if fields.Failure? {
        return Fail(fields.error);
      }
      var f := fields.value;
      var id := Text(f, "ActivityId");
      if kind == RequestStart || kind == HttpOutStart {
        var item := new ActivityTreeItem(id, Text(f, "ActivityParentId"), DescriptionOf(kind, f), f.ticks);
        r := OnStartActivity(item);
      } else {
        r := StopActivity(id, f.ticks);
      }
    }

    /**
     * One prune pass at time `now`: every expired activity is removed from
     * the table, and the ids of the removed roots (no parent) are reported.
     */
    method Prune(now: int) returns (reported: set<string>)
      requires Valid()
      modifies this
      ensures Valid()
      ensures open == map k | k in old(open) && !Expired(old(open)[k], now) :: old(open)[k]
      ensures reported == set k | k in old(open) && Expired(old(open)[k], now) && old(open)[k].parentId.None?
    {
      var snapshot := open;
      var pending := open.Keys;
      reported := {};
      while pending != {}
        invariant pending <= snapshot.Keys
        invariant forall k :: k in snapshot ==> snapshot[k].id == Some(k)
        invariant open == map k | k in snapshot && (k in pending || !Expired(snapshot[k], now)) :: snapshot[k]
        invariant reported ==
          set k | k in snapshot && k !in pending && Expired(snapshot[k], now) && snapshot[k].parentId.None?
        decreases pending
      {
        var k :| k in pending;
        var item := snapshot[k];
        if Expired(item, now) {
          open := open - {item.id.value};
          if item.parentId.None? {
            reported := reported + {k};
          }
        }
        pending := pending - {k};
      }
    }
  }
}
