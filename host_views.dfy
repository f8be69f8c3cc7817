/**
 * The host platform's view hierarchy, as far as the bridge relies on it:
 * every view has at most one parent, a view group lists its children in
 * order, and a child is removed from one parent before it is added to
 * another. Android's `ViewGroup` (`addView`, `removeView`) and UIKit's
 * `UIView` (`addSubview`, `removeFromSuperview`, `frame`) are both modelled
 * by `ViewTree`. Also the event dispatcher a view uses to deliver Unity's
 * messages to the app.
 */
module HostViews {
  /** Views are identified by number. */
  type ViewId = nat

  /** A view's frame rectangle, in its parent's coordinates. */
  datatype Rect = Rect(x: int, y: int, width: int, height: int)

  /** No view occurs twice in `s`. */
  predicate Distinct(s: seq<ViewId>)
  {
    forall i, j :: 0 <= i < j < |s| ==> s[i] != s[j]
  }

  /** `s` without `v`, the other children keeping their order. */
  function Without(s: seq<ViewId>, v: ViewId): (r: seq<ViewId>)
    ensures forall x :: x in r <==> x in s && x != v
    ensures v !in s ==> r == s
    ensures Distinct(s) ==> Distinct(r)
    ensures |r| <= |s|
  {
    if s == [] then []
    else
      var rest := Without(s[1..], v);
      if s[0] == v then rest
      else
        assert Distinct(s) ==> s[0] !in s[1..];
        [s[0]] + rest
  }

  /** In a list without repeats, removing `v` is removing the one position
      that holds it: the filter above agrees with index-based removal. */
  lemma {:induction false} WithoutRemovesAt(s: seq<ViewId>, i: nat)
    requires Distinct(s) && i < |s|
    ensures Without(s, s[i]) == s[..i] + s[i + 1..]
  {
    if i == 0 {
      assert s[0] !in s[1..];
    } else {
      var v, tail := s[i], s[1..];
      assert s[0] != v && tail[i - 1] == v;
      assert Distinct(tail);
      WithoutRemovesAt(tail, i - 1);
      assert Without(s, v) == [s[0]] + Without(tail, v);
      assert tail[..i - 1] == s[1..i] && tail[i..] == s[i + 1..];
      assert s[..i] == [s[0]] + s[1..i];
    }
  }

  /** The children of every group after `v` is taken out of the hierarchy. */
  function RemovedEverywhere(children: map<ViewId, seq<ViewId>>, v: ViewId): (r: map<ViewId, seq<ViewId>>)
    ensures r.Keys == children.Keys
    ensures forall g :: g in r ==> v !in r[g] && r[g] == Without(children[g], v)
  {
    map g | g in children :: Without(children[g], v)
  }

  /** The children of every group after `v` is moved into `group`, at the
      front (`atFront`) or at the end; `MovedToMeaning` states what that is. */
  function MovedTo(children: map<ViewId, seq<ViewId>>, v: ViewId, group: ViewId, atFront: bool)
    : map<ViewId, seq<ViewId>>
    requires group in children
  {
    var held := Without(children[group], v);
    RemovedEverywhere(children, v)[group := if atFront then [v] + held else held + [v]]
  }

  /** A move is a removal from every group followed by an insertion into
      `group`, as the view tree performs it. */
  lemma MovedToAfterRemove(children: map<ViewId, seq<ViewId>>, v: ViewId, group: ViewId, atFront: bool)
    requires group in children
    ensures var removed := RemovedEverywhere(children, v);
      MovedTo(children, v, group, atFront)
        == removed[group := if atFront then [v] + removed[group] else removed[group] + [v]]
  {
    assert RemovedEverywhere(children, v)[group] == Without(children[group], v);
  }

  /** Clearing a view's parent and then setting it is setting it. */
  lemma ReparentedLink(parent: map<ViewId, ViewId>, v: ViewId, group: ViewId)
    ensures (parent - {v})[v := group] == parent[v := group]
  {
  }

  /** After a move, `group` is the one group that holds `v` and holds it
      once; every other view is held by the same groups as before, and the
      relative order of `group`'s other children is unchanged. */
  lemma MovedToMeaning(children: map<ViewId, seq<ViewId>>, v: ViewId, group: ViewId, atFront: bool)
    requires group in children
    ensures var r := MovedTo(children, v, group, atFront);
      && r.Keys == children.Keys
      && v in r[group] && (forall g :: g in r && g != group ==> v !in r[g])
      && (forall g, x :: g in r && x != v ==> (x in r[g] <==> x in children[g]))
      && Without(r[group], v) == Without(children[group], v)
      && (Distinct(children[group]) ==> Distinct(r[group]))
  {
    WithoutIdempotent(children[group], v);
  }

  lemma {:induction false} WithoutIdempotent(s: seq<ViewId>, v: ViewId)
    ensures Without(Without(s, v), v) == Without(s, v)
    ensures Without([v] + Without(s, v), v) == Without(s, v)
    ensures Without(Without(s, v) + [v], v) == Without(s, v)
  {
    WithoutAppend(Without(s, v), v);
  }

  lemma {:induction false} WithoutAppend(s: seq<ViewId>, v: ViewId)
    requires v !in s
    ensures Without(s + [v], v) == s
  {
    if s != [] {
      WithoutAppend(s[1..], v);
      assert (s + [v])[1..] == s[1..] + [v];
    } else {
      assert Without([v], v) == Without([], v);
    }
  }

  /** The links agree: a view has a parent exactly when that parent lists
      it, and no group lists a child twice. So a view is listed by at most
      one group, at most once. */
  ghost predicate Consistent(parent: map<ViewId, ViewId>, children: map<ViewId, seq<ViewId>>)
  {
    && (forall v :: v in parent ==> parent[v] in children && v in children[parent[v]])
    && (forall g, v :: g in children && v in children[g] ==> v in parent && parent[v] == g)
    && (forall g :: g in children ==> Distinct(children[g]))
  }

  /** Giving a parentless view a parent whose new children are the old ones
      plus that view, without repeats, keeps the links consistent. */
  lemma ConsistentAfterInsert(parent: map<ViewId, ViewId>, children: map<ViewId, seq<ViewId>>,
                              group: ViewId, child: ViewId, kids: seq<ViewId>)
    requires Consistent(parent, children) && group in children && child !in parent
    requires Distinct(kids) && forall x :: x in kids <==> x in children[group] || x == child
    ensures Consistent(parent[child := group], children[group := kids])
  {
  }

  /** Taking a child out of its parent and clearing its parent keeps the
      links consistent. */
  lemma ConsistentAfterRemove(parent: map<ViewId, ViewId>, children: map<ViewId, seq<ViewId>>,
                              group: ViewId, child: ViewId)
    requires Consistent(parent, children) && group in children && child in children[group]
    ensures Consistent(parent - {child}, children[group := Without(children[group], child)])
  {
    var after := children[group := Without(children[group], child)];
    forall g, v | g in after && v in after[g]
      ensures v in parent - {child} && (parent - {child})[v] == g
    {
      if g == group {
        assert v in children[g] && v != child;
      } else {
        assert v in children[g] && parent[child] == group;
      }
    }
  }

  /** Inserting a view that is not yet listed, at any position, lists it
      once and keeps the others. */
  lemma InsertAtMembers(kids: seq<ViewId>, child: ViewId, index: nat)
    requires Distinct(kids) && child !in kids && index <= |kids|
    ensures var r := kids[..index] + [child] + kids[index..];
      Distinct(r) && forall x :: x in r <==> x in kids || x == child
  {
  }

  /** The parent and children links of the views. */
  class ViewTree {
    var parent: map<ViewId, ViewId>
    var children: map<ViewId, seq<ViewId>>
    var frames: map<ViewId, Rect>

    /** The parent and children links are consistent. */
    ghost predicate Valid()
      reads this
    {
      Consistent(parent, children)
    }

    /** A hierarchy of the given groups, all empty. */
    constructor (groups: set<ViewId>)
      ensures Valid()
      ensures parent == map[] && frames == map[]
      ensures children == map g | g in groups :: []
    {
      parent := map[];
      children := map g | g in groups :: [];
      frames := map[];
    }

    /** The groups holding `v`: its parent, and no other. */
    lemma ParentIsOnlyHolder(v: ViewId)
      requires Valid()
      ensures forall g :: g in children && v in children[g] ==> v in parent && g == parent[v]
      ensures v !in parent ==> forall g :: g in children ==> v !in children[g]
    {
    }

    /** `ViewGroup.removeView(child)`: when `child` is a child of `group` it
        is taken out, the other children keeping their order, and it has no
        parent any more; otherwise nothing changes. */
    method RemoveView(group: ViewId, child: ViewId)
      requires Valid() && group in children
      modifies this
      ensures Valid()
      ensures old(child in children[group]) ==>
        children == old(children)[group := Without(old(children[group]), child)]
        && parent == old(parent) - {child}
      ensures old(child !in children[group]) ==> children == old(children) && parent == old(parent)
      ensures frames == old(frames)
    {
      if child in children[group] {
        ConsistentAfterRemove(parent, children, group, child);
        children := children[group := Without(children[group], child)];
        parent := parent - {child};
      }
    }

    /** `ViewGroup.addView(child)`: `child` becomes the last child of
        `group`, with `group` as its parent. Android refuses a child that
        already has a parent, so callers detach it first. */
    method AddView(group: ViewId, child: ViewId)
      requires Valid() && group in children && child !in parent
      modifies this
      ensures Valid()
      ensures children == old(children)[group := old(children[group]) + [child]]
      ensures parent == old(parent)[child := group]
      ensures frames == old(frames)
    {
      ParentIsOnlyHolder(child);
      InsertAtMembers(children[group], child, |children[group]|);
      assert children[group][..|children[group]|] + [child] + children[group][|children[group]|..]
        == children[group] + [child];
      ConsistentAfterInsert(parent, children, group, child, children[group] + [child]);
      children := children[group := children[group] + [child]];
      parent := parent[child := group];
    }

    /** `ViewGroup.addView(child, index)`: `child` is inserted among the
        children of `group` at position `index`, with `group` as its parent. */
    method AddViewAt(group: ViewId, child: ViewId, index: nat)
      requires Valid() && group in children && child !in parent
      requires index <= |children[group]|
      modifies this
      ensures Valid()
      ensures children == old(children)[group := old(children[group])[..index] + [child] + old(children[group])[index..]]
      ensures index == 0 ==> children == old(children)[group := [child] + old(children[group])]
      ensures parent == old(parent)[child := group]
      ensures frames == old(frames)
    {
      ParentIsOnlyHolder(child);
      var kids := children[group];
      assert kids[..0] + [child] + kids[0..] == [child] + kids;
      InsertAtMembers(kids, child, index);
      ConsistentAfterInsert(parent, children, group, child, kids[..index] + [child] + kids[index..]);
      children := children[group := kids[..index] + [child] + kids[index..]];
      parent := parent[child := group];
    }

    /** Detach `v` from whatever parent it has (`(v.parent as? ViewGroup)?.removeView(v)`
        on Android, `removeFromSuperview` on iOS): afterwards no group holds it. */
    method RemoveFromParent(v: ViewId)
      requires Valid()
      modifies this
      ensures Valid()
      ensures v !in parent && parent == old(parent) - {v}
      ensures children == RemovedEverywhere(old(children), v)
      ensures frames == old(frames)
    {
      ParentIsOnlyHolder(v);
      if v in parent {
        RemoveView(parent[v], v);
      }
    }

    /** `child` leaves its current parent and becomes the last child of
        `group`: UIKit's `group.addSubview(child)`, and Android's
        `(child.parent as? ViewGroup)?.removeView(child)` followed by
        `group.addView(child)`. */
    method MoveToEnd(group: ViewId, child: ViewId)
      requires Valid() && group in children
      modifies this
      ensures Valid()
      ensures children == MovedTo(old(children), child, group, false)
      ensures parent == old(parent)[child := group]
      ensures frames == old(frames)
    {
      ghost var before, parentBefore := children, parent;
      RemoveFromParent(child);
      ghost var removed := children;
      assert group in removed;
      AddView(group, child);
      assert children == removed[group := removed[group] + [child]];
      MovedToAfterRemove(before, child, group, false);
      ReparentedLink(parentBefore, child, group);
    }

    /** Android's re-parenting idiom, `(child.parent as? ViewGroup)?.removeView(child)`
        followed by `group.addView(child, 0)`: `child` leaves its current
        parent and becomes the first child of `group`. */
    method MoveToFront(group: ViewId, child: ViewId)
      requires Valid() && group in children
      modifies this
      ensures Valid()
      ensures children == MovedTo(old(children), child, group, true)
      ensures parent == old(parent)[child := group]
      ensures frames == old(frames)
    {
      ghost var before, parentBefore := children, parent;
      RemoveFromParent(child);
      ghost var removed := children;
      assert group in removed;
      AddViewAt(group, child, 0);
      assert children == removed[group := [child] + removed[group]];
      MovedToAfterRemove(before, child, group, true);
      ReparentedLink(parentBefore, child, group);
    }

    /** Assigning a view's `frame`. */
    method SetFrame(v: ViewId, r: Rect)
      modifies this
      ensures frames == old(frames)[v := r]
      ensures parent == old(parent) && children == old(children)
    {
      frames := frames[v := r];
    }
  }

  /** The `onUnityMessage` event dispatcher of a mounted view: the messages
      it has delivered to the app, in order. */
  class EventDispatcher {
    var dispatched: seq<string>

    constructor ()
      ensures dispatched == []
    {
      dispatched := [];
    }

    /** Deliver an `{ message }` event to the app. */
    method Dispatch(message: string)
      modifies this
      ensures dispatched == old(dispatched) + [message]
    {
      dispatched := dispatched + [message];
    }
  }
}
