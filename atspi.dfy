/** The AT-SPI object of gazelle: an accessible object on the D-Bus accessibility bus,
    named by its bus service and object path, which mirrors its remote children while
    it is watching them.

    The D-Bus proxies are outside this model: the subscription to ChildrenChanged is a
    number handed in by the caller, the children list GetChildren returns is a list of
    (service, path) pairs handed in by the caller, and a children-changed event is its
    detail, index and child id. WatchChildrenTask is an asynchronous task with two
    awaits; the object counts the runs suspended at each await, and the caller resumes
    one of them by Subscribed or ChildrenFetched. The base class's child list is the
    field `children`. */
module AtSpi {
  import opened UiDomValues

  /** The object path of the desktop root, the one object that watches its children as
      soon as it is alive. */
  const RootPath: string := "/org/a11y/atspi/accessible/root"

  type SubscriptionId = nat

  /** A C# `(int)` cast of a 32-bit unsigned event index: values from 2^31 on wrap to
      negative numbers. */
  function ToInt32(u: nat): (r: int)
    requires u < 0x1_0000_0000
    ensures -0x8000_0000 <= r < 0x8000_0000
    ensures r % 0x1_0000_0000 == u
    ensures u < 0x8000_0000 <==> r == u
  {
    if u < 0x8000_0000 then u else u - 0x1_0000_0000
  }

  /** The (service, path) identities of a list of objects. */
  function Ids(cs: seq<AtSpiObject>): (r: seq<(string, string)>)
    ensures |r| == |cs|
    ensures forall k :: 0 <= k < |cs| ==> r[k] == (cs[k].service, cs[k].path)
  {
    if cs == [] then [] else Ids(cs[..|cs| - 1]) + [(cs[|cs| - 1].service, cs[|cs| - 1].path)]
  }

  /** The position of the first object with the given identity, |cs| when there is none. */
  function MatchIndex(cs: seq<AtSpiObject>, service: string, path: string): (k: nat)
    ensures k <= |cs|
    ensures k < |cs| ==> cs[k].service == service && cs[k].path == path
    ensures forall j :: 0 <= j < k ==> !(cs[j].service == service && cs[j].path == path)
  {
    if cs == [] then 0
    else if cs[0].service == service && cs[0].path == path then 0
    else 1 + MatchIndex(cs[1..], service, path)
  }

  /** The list with its first object of the given identity taken out; the list itself when
      no object has that identity. */
  function RemoveFirst(cs: seq<AtSpiObject>, service: string, path: string): seq<AtSpiObject> {
    var k := MatchIndex(cs, service, path);
    if k < |cs| then cs[..k] + cs[k + 1..] else cs
  }

  /** A "remove" event takes out at most one object, and only one with the given identity:
      every object of that identity but the first stays, and so does every other object,
      in order. */
  lemma RemoveFirstMeaning(cs: seq<AtSpiObject>, service: string, path: string)
    ensures var r := RemoveFirst(cs, service, path);
      (|r| == |cs| <==> (forall j :: 0 <= j < |cs| ==> !(cs[j].service == service && cs[j].path == path))) &&
      (|r| == |cs| ==> r == cs) &&
      (|r| < |cs| ==>
        |r| == |cs| - 1 &&
        exists k :: 0 <= k < |cs| && cs[k].service == service && cs[k].path == path &&
          r == cs[..k] + cs[k + 1..] &&
          forall j :: 0 <= j < k ==> !(cs[j].service == service && cs[j].path == path))
  {
    var k := MatchIndex(cs, service, path);
    if k < |cs| {
      assert cs[k].service == service && cs[k].path == path;
    }
  }

  /** `s` with ':' and `p` appended. */
  function Joined(s: string, p: string): (r: string)
    ensures |r| == |s| + 1 + |p| && r[..|s|] == s && r[|s|] == ':' && r[|s| + 1..] == p
  {
    s + [':'] + p
  }

  /** The colon of a DebugId is its last one when the path has none (bus object paths are
      made of letters, digits, '_' and '/'), so DebugId names the object's identity even
      for unique bus names such as ":1.42". */
  lemma DebugIdDetermines(s1: string, p1: string, s2: string, p2: string)
    requires ':' !in p1 && ':' !in p2
    requires Joined(s1, p1) == Joined(s2, p2)
    ensures s1 == s2 && p1 == p2
  {
  }

  class AtSpiObject {
    const service: string
    const path: string

    /** IsAlive of the base class. */
    var alive: bool
    var watchingChildren: bool
    var childrenKnown: bool
    /** children_changed_event: the current subscription to ChildrenChanged, None for null. */
    var childrenChangedEvent: Option<SubscriptionId>
    /** Children of the base class. */
    var children: seq<AtSpiObject>
    /** The subscriptions disposed so far, in order. */
    var disposed: seq<SubscriptionId>
    /** WatchChildrenTask runs awaiting the subscription, and awaiting GetChildren. */
    var subscribing: nat
    var fetching: nat

    /** The children mirror is consistent: an object that is not watching has no children
        and no subscription, and one that is watching but has not learnt its children yet
        has none either. */
    predicate Valid()
      reads this
    {
      (!watchingChildren ==> children == [] && childrenChangedEvent.None?) &&
      (watchingChildren && !childrenKnown ==> children == [])
    }

    constructor(service: string, path: string)
      ensures this.service == service && this.path == path
      ensures !alive && !watchingChildren && !childrenKnown && childrenChangedEvent.None?
      ensures children == [] && disposed == [] && subscribing == 0 && fetching == 0
      ensures Valid()
    {
      this.service := service;
      this.path := path;
      alive := false;
      watchingChildren := false;
      childrenKnown := false;
      childrenChangedEvent := None;
      children := [];
      disposed := [];
      subscribing := 0;
      fetching := 0;
    }

    /** DebugId: the service and the path, separated by a colon. */
    function DebugId(): (r: string)
      ensures |r| == |service| + 1 + |path| && r[..|service|] == service && r[|service|] == ':'
      ensures r[|service| + 1..] == path
    {
      Joined(service, path)
    }

    // ----- The base class's child list -----

    /** AddChild of the base class, as a list insertion; an index outside 0..|children|
        fails. */
    method AddChild(index: int, c: AtSpiObject) returns (o: Outcome)
      modifies this`children
      ensures 0 <= index <= |old(children)| ==>
        o.Pass? && children == old(children)[..index] + [c] + old(children)[index..]
      ensures !(0 <= index <= |old(children)|) ==> o == Fail(IndexOutOfRange) && children == old(children)
    {
      if index < 0 || index > |children| {
        return Fail(IndexOutOfRange);
      }
      children := children[..index] + [c] + children[index..];
      return Pass;
    }

    /** RemoveChild of the base class, as a list removal. */
    method RemoveChild(i: nat)
      requires i < |children|
      modifies this`children
      ensures children == old(children)[..i] + old(children)[i + 1..]
    {
      children := children[..i] + children[i + 1..];
    }

    // ----- Watching children -----

    /** WatchChildren: a second call while watching does nothing; the first sets the flag,
        forgets that the children are known and starts WatchChildrenTask. */
    method WatchChildren()
      modifies this`watchingChildren, this`childrenKnown, this`subscribing
      ensures old(watchingChildren) ==>
        watchingChildren && childrenKnown == old(childrenKnown) && subscribing == old(subscribing)
      ensures !old(watchingChildren) ==> watchingChildren && !childrenKnown && subscribing == old(subscribing) + 1
      ensures old(Valid()) ==> Valid()
    {
      if watchingChildren {
        return;
      }
      watchingChildren := true;
      childrenKnown := false;
      subscribing := subscribing + 1;
    }

    /** UnwatchChildren: a second call while not watching does nothing; the first clears the
        flag, disposes and forgets the subscription, and removes the children from the last
        one down. */
    method UnwatchChildren()
      modifies this`watchingChildren, this`childrenChangedEvent, this`disposed, this`children
      ensures !old(watchingChildren) ==>
        !watchingChildren && childrenChangedEvent == old(childrenChangedEvent) &&
        disposed == old(disposed) && children == old(children)
      ensures old(watchingChildren) ==>
        !watchingChildren && childrenChangedEvent.None? && children == [] &&
        disposed == old(disposed) + (if old(childrenChangedEvent).Some? then [old(childrenChangedEvent).value] else [])
      ensures old(watchingChildren) || old(Valid()) ==> Valid()
    {
      if !watchingChildren {
        return;
      }
      watchingChildren := false;
      if childrenChangedEvent.Some? {
        disposed := disposed + [childrenChangedEvent.value];
        childrenChangedEvent := None;
      }
      RemoveAllChildren();
    }

    /** The loop of UnwatchChildren: RemoveChild at the last index until none is left. */
    method RemoveAllChildren()
      modifies this`children
      ensures children == []
    {
      var i := |children|;
      while i > 0
        invariant 0 <= i <= |old(children)| && children == old(children)[..i]
      {
        i := i - 1;
        RemoveChild(i);
      }
    }

    /** WatchChildrenTask once its subscription has arrived, as written: the previous
        subscription, if any, is disposed and the new one kept, whether or not the object
        is still watching. */
    method SubscribedAsWritten(sub: SubscriptionId)
      requires subscribing > 0
      modifies this`childrenChangedEvent, this`disposed, this`subscribing, this`fetching
      ensures subscribing == old(subscribing) - 1 && fetching == old(fetching) + 1
      ensures childrenChangedEvent == Some(sub)
      ensures disposed == old(disposed) + (if old(childrenChangedEvent).Some? then [old(childrenChangedEvent).value] else [])
    {
      subscribing := subscribing - 1;
      fetching := fetching + 1;
      if childrenChangedEvent.Some? {
        disposed := disposed + [childrenChangedEvent.value];
      }
      childrenChangedEvent := Some(sub);
    }

    /** WatchChildrenTask once GetChildren has answered, as written: unless the children are
        already known, they are added in order at indices 0, 1, ..., whether or not the
        object is still watching. */
    method ChildrenFetchedAsWritten(ids: seq<(string, string)>)
      requires fetching > 0
      modifies this`children, this`childrenKnown, this`fetching
      ensures fetching == old(fetching) - 1 && childrenKnown
      ensures old(childrenKnown) ==> children == old(children)
      ensures !old(childrenKnown) ==>
        |children| == |ids| + |old(children)| && Ids(children[..|ids|]) == ids &&
        children[|ids|..] == old(children) &&
        forall k :: 0 <= k < |ids| ==> fresh(children[k])
    {
      fetching := fetching - 1;
      if childrenKnown {
        return;
      }
      Populate(ids);
    }

    /** The population loop of WatchChildrenTask: child i is a new object for ids[i],
        added at index i. */
    method Populate(ids: seq<(string, string)>)
      modifies this`children, this`childrenKnown
      ensures childrenKnown
      ensures |children| == |ids| + |old(children)| && Ids(children[..|ids|]) == ids
      ensures children[|ids|..] == old(children)
      ensures forall k :: 0 <= k < |ids| ==> fresh(children[k])
    {
      var i := 0;
      while i < |ids|
        invariant i <= |ids| && |children| == i + |old(children)|
        invariant Ids(children[..i]) == ids[..i] && children[i..] == old(children)
        invariant forall k :: 0 <= k < i ==> fresh(children[k])
      {
        ghost var before := children;
        var c := new AtSpiObject(ids[i].0, ids[i].1);
        var o := AddChild(i, c);
        assert forall k :: 0 <= k < i ==> children[k] == before[k];
        assert children[..i + 1] == children[..i] + [c];
        i := i + 1;
      }
      childrenKnown := true;
    }

    /** WatchChildrenTask once its subscription has arrived, corrected: a run that finds the
        object no longer watching disposes the subscription it was given instead of keeping
        it. */
    method Subscribed(sub: SubscriptionId)
      requires subscribing > 0
      modifies this`childrenChangedEvent, this`disposed, this`subscribing, this`fetching
      ensures subscribing == old(subscribing) - 1 && fetching == old(fetching) + 1
      ensures !watchingChildren ==> childrenChangedEvent == old(childrenChangedEvent) && disposed == old(disposed) + [sub]
      ensures watchingChildren ==>
        childrenChangedEvent == Some(sub) &&
        disposed == old(disposed) + (if old(childrenChangedEvent).Some? then [old(childrenChangedEvent).value] else [])
      ensures old(Valid()) ==> Valid()
    {
      if !watchingChildren {
        subscribing := subscribing - 1;
        fetching := fetching + 1;
        disposed := disposed + [sub];
        return;
      }
      SubscribedAsWritten(sub);
    }

    /** WatchChildrenTask once GetChildren has answered, corrected: a run that finds the
        object no longer watching adds nothing. A valid object then mirrors exactly the
        list it was given. */
    method ChildrenFetched(ids: seq<(string, string)>)
      requires fetching > 0
      modifies this`children, this`childrenKnown, this`fetching
      ensures fetching == old(fetching) - 1
      ensures !watchingChildren || old(childrenKnown) ==> children == old(children) && childrenKnown == old(childrenKnown)
      ensures watchingChildren && !old(childrenKnown) ==>
        childrenKnown && |children| == |ids| + |old(children)| && Ids(children[..|ids|]) == ids &&
        children[|ids|..] == old(children) &&
        forall k :: 0 <= k < |ids| ==> fresh(children[k])
      ensures old(Valid()) ==> Valid()
      ensures old(Valid()) && watchingChildren && !old(childrenKnown) ==> Ids(children) == ids
    {
      if !watchingChildren {
        fetching := fetching - 1;
        return;
      }
      ChildrenFetchedAsWritten(ids);
      if old(Valid()) && !old(childrenKnown) {
        assert children[..|ids|] == children;
      }
    }

    // ----- Children-changed events -----

    /** OnChildrenChanged: ignored unless watching with the children known. "add" inserts a
        new object for the given id at the event's index (cast to a signed int); "remove"
        takes out the first child with the given id, whatever the event's index; any other
        detail is ignored. */
    method OnChildrenChanged(detail: string, index: nat, service: string, path: string) returns (o: Outcome)
      requires index < 0x1_0000_0000
      modifies this`children
      ensures !watchingChildren || !childrenKnown || detail !in {"add", "remove"} ==>
        o.Pass? && children == old(children)
      ensures watchingChildren && childrenKnown && detail == "add" ==>
        var i := ToInt32(index);
        (0 <= i <= |old(children)| ==>
          o.Pass? && |children| == |old(children)| + 1 &&
          children[..i] == old(children)[..i] && children[i + 1..] == old(children)[i..] &&
          children[i].service == service && children[i].path == path && fresh(children[i])) &&
        (!(0 <= i <= |old(children)|) ==> o == Fail(IndexOutOfRange) && children == old(children))
      ensures watchingChildren && childrenKnown && detail == "remove" ==>
        o.Pass? && children == RemoveFirst(old(children), service, path)
      ensures old(Valid()) ==> Valid()
    {
      if !watchingChildren || !childrenKnown {
        return Pass;
      }
      if detail == "add" {
        var c := new AtSpiObject(service, path);
        o := AddChild(ToInt32(index), c);
      } else if detail == "remove" {
        o := RemoveMatching(service, path);
      } else {
        o := Pass;
      }
    }

    /** The "remove" loop: scans the children for the first with the given identity. */
    method RemoveMatching(service: string, path: string) returns (o: Outcome)
      modifies this`children
      ensures o.Pass? && children == RemoveFirst(old(children), service, path)
    {
      var i := 0;
      while i < |children|
        invariant i <= |children| && children == old(children)
        invariant forall j :: 0 <= j < i ==> !(children[j].service == service && children[j].path == path)
      {
        if children[i].service == service && children[i].path == path {
          assert MatchIndex(children, service, path) == i;
          RemoveChild(i);
          return Pass;
        }
        i := i + 1;
      }
      assert MatchIndex(children, service, path) == |children|;
      return Pass;
    }

    // ----- SetAlive -----

    /** SetAlive: the base class's flag changes, and the desktop root starts watching its
        children on becoming alive and stops on dying; no other object watches. */
    method SetAlive(value: bool)
      modifies this`alive, this`watchingChildren, this`childrenKnown, this`subscribing,
               this`childrenChangedEvent, this`disposed, this`children
      ensures alive == value
      ensures path == RootPath ==> watchingChildren == value
      ensures path == RootPath && value && !old(watchingChildren) ==>
        !childrenKnown && subscribing == old(subscribing) + 1 && children == old(children)
      ensures path == RootPath && value ==>
        disposed == old(disposed) && childrenChangedEvent == old(childrenChangedEvent) && fetching == old(fetching)
      ensures path == RootPath && !value ==>
        childrenKnown == old(childrenKnown) && subscribing == old(subscribing)
      ensures path == RootPath && !value && old(watchingChildren) ==>
        children == [] && childrenChangedEvent.None? &&
        disposed == old(disposed) + (if old(childrenChangedEvent).Some? then [old(childrenChangedEvent).value] else [])
      ensures path != RootPath ==>
        watchingChildren == old(watchingChildren) && childrenKnown == old(childrenKnown) &&
        subscribing == old(subscribing) && childrenChangedEvent == old(childrenChangedEvent) &&
        disposed == old(disposed) && children == old(children)
      ensures old(Valid()) ==> Valid()
    {
      alive := value;
      if path == RootPath {
        if value {
          WatchChildren();
        } else {
          UnwatchChildren();
        }
      }
    }
  }

  // ----- The in-flight WatchChildrenTask -----

  /** As written: the root is unwatched while its WatchChildrenTask is suspended; the run
      then keeps its subscription and adds the children, so a root that is not watching
      holds a live subscription and children that no event will update. */
  method StaleChildrenAfterUnwatch() returns (root: AtSpiObject)
    ensures !root.watchingChildren && root.childrenChangedEvent == Some(7) && |root.children| == 1
    ensures !root.Valid()
  {
    root := new AtSpiObject(":1.0", RootPath);
    root.SetAlive(true);
    root.SetAlive(false);
    root.SubscribedAsWritten(7);
    root.ChildrenFetchedAsWritten([(":1.5", "/org/a11y/atspi/accessible/1")]);
  }

  /** Corrected: the same sequence leaves the root with no subscription and no children,
      the subscription it was handed disposed. */
  method NoStaleChildrenAfterUnwatch() returns (root: AtSpiObject)
    ensures !root.watchingChildren && root.childrenChangedEvent.None? && root.children == []
    ensures root.disposed == [7] && root.Valid()
  {
    root := new AtSpiObject(":1.0", RootPath);
    root.SetAlive(true);
    root.SetAlive(false);
    root.Subscribed(7);
    root.ChildrenFetched([(":1.5", "/org/a11y/atspi/accessible/1")]);
  }
}
