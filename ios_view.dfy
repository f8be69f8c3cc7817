/**
 * The iOS `ExpoUnityView` on a device: once set up it initializes Unity if
 * needed, makes itself the target of Unity's messages and hosts Unity's root
 * view, sized to its own bounds; on removal from its superview it clears the
 * message callback and unloads or pauses Unity according to
 * `autoUnloadOnUnmount`. The view's `bounds` at each call are a parameter,
 * and its deferred `setupUnity` is the caller invoking `SetupUnity`.
 */
module IosView {
  import opened Optional
  import opened HostViews
  import opened IosBridge

  class ExpoUnityView {
    /** This view in the hierarchy. */
    const id: ViewId
    /** The view's `onUnityMessage` event dispatcher. */
    const onUnityMessage: EventDispatcher
    /** `UnityBridge.shared()`. */
    const bridge: UnityBridge
    /** Unload (true) or only pause (false) Unity on removal. */
    var autoUnloadOnUnmount: bool

    constructor (id: ViewId, bridge: UnityBridge)
      ensures this.id == id && this.bridge == bridge && fresh(onUnityMessage)
      ensures onUnityMessage.dispatched == []
      ensures autoUnloadOnUnmount
    {
      this.id := id;
      this.bridge := bridge;
      onUnityMessage := new EventDispatcher();
      autoUnloadOnUnmount := true;
    }

    /** Unity's root view is a subview of this view. */
    predicate MountedHere()
      reads this, bridge, bridge.views
    {
      bridge.rootView.Some? && bridge.rootView.value in bridge.views.parent
      && bridge.views.parent[bridge.rootView.value] == id
    }

    /** `mountUnityView`: with no root view nothing changes. Otherwise the
        root view's frame becomes `bounds`, and it is added as a subview
        only when it is not one already, so repeated mounts never add it
        twice; afterwards this view is its one superview. */
    method MountUnityView(bounds: Rect)
      requires bridge.Valid() && id in bridge.views.children
      modifies bridge.views
      ensures bridge.Valid()
      ensures bridge.rootView.None? ==> unchanged(bridge.views)
      ensures bridge.rootView.Some? ==> MountedHere()
      ensures bridge.rootView.Some? ==>
        bridge.views.frames == old(bridge.views.frames)[bridge.rootView.value := bounds]
      ensures bridge.rootView.Some? && old(MountedHere()) ==>
        bridge.views.children == old(bridge.views.children) && bridge.views.parent == old(bridge.views.parent)
      ensures bridge.rootView.Some? && !old(MountedHere()) ==>
        && bridge.views.children == MovedTo(old(bridge.views.children), bridge.rootView.value, id, false)
        && bridge.views.parent == old(bridge.views.parent)[bridge.rootView.value := id]
    {
      if bridge.rootView.None? {
        return;
      }
      var unityView := bridge.rootView.value;
      bridge.views.SetFrame(unityView, bounds);
      if !(unityView in bridge.views.parent && bridge.views.parent[unityView] == id) {
        bridge.views.MoveToEnd(id, unityView);
      }
    }

    /** `layoutSubviews`: a root view already mounted here is resized to
        `bounds`; otherwise a mount is attempted. Either way the effect is
        exactly that of `MountUnityView`. */
    method LayoutSubviews(bounds: Rect)
      requires bridge.Valid() && id in bridge.views.children
      modifies bridge.views
      ensures bridge.Valid()
      ensures bridge.rootView.None? ==> unchanged(bridge.views)
      ensures bridge.rootView.Some? ==> MountedHere()
      ensures bridge.rootView.Some? ==>
        bridge.views.frames == old(bridge.views.frames)[bridge.rootView.value := bounds]
      ensures bridge.rootView.Some? && old(MountedHere()) ==>
        bridge.views.children == old(bridge.views.children) && bridge.views.parent == old(bridge.views.parent)
      ensures bridge.rootView.Some? && !old(MountedHere()) ==>
        && bridge.views.children == MovedTo(old(bridge.views.children), bridge.rootView.value, id, false)
        && bridge.views.parent == old(bridge.views.parent)[bridge.rootView.value := id]
    {
      if MountedHere() {
        bridge.views.SetFrame(bridge.rootView.value, bounds);
      } else {
        MountUnityView(bounds);
      }
    }

    /** `setupUnity`: `initialize` is called only when Unity is not already
        initialized (`initializedAfter` and `rootAfter` are what it leaves
        behind); the one message callback is overwritten to deliver to this
        view; then the root view is mounted. */
    method SetupUnity(bounds: Rect, initializedAfter: bool, rootAfter: Option<ViewId>)
      requires bridge.Valid() && id in bridge.views.children
      requires rootAfter.Some? ==> rootAfter.value !in bridge.views.children
      modifies bridge, bridge.views
      ensures bridge.Valid()
      ensures bridge.onMessage == Some(onUnityMessage)
      ensures old(bridge.initialized) ==>
        bridge.calls == old(bridge.calls) && bridge.initialized && bridge.rootView == old(bridge.rootView)
      ensures !old(bridge.initialized) ==>
        && bridge.calls == old(bridge.calls) + [BridgeCall.Initialize]
        && bridge.initialized == initializedAfter && bridge.rootView == rootAfter
      ensures bridge.rootView.None? ==> unchanged(bridge.views)
      ensures bridge.rootView.Some? ==> MountedHere()
      ensures bridge.rootView.Some? ==>
        bridge.views.frames == old(bridge.views.frames)[bridge.rootView.value := bounds]
      ensures bridge.rootView.Some? ==>
        var r := bridge.rootView.value;
        if r in old(bridge.views.parent) && old(bridge.views.parent)[r] == id then
          bridge.views.children == old(bridge.views.children) && bridge.views.parent == old(bridge.views.parent)
        else
          && bridge.views.children == MovedTo(old(bridge.views.children), r, id, false)
          && bridge.views.parent == old(bridge.views.parent)[r := id]
    {
      if !bridge.initialized {
        bridge.Initialize(initializedAfter, rootAfter);
      }
      bridge.onMessage := Some(onUnityMessage);
      MountUnityView(bounds);
    }

    /** `removeFromSuperview`: the message callback is always cleared; an
        initialized Unity is unloaded when `autoUnloadOnUnmount` is set and
        paused otherwise, and an uninitialized one gets neither; then this
        view leaves its superview. */
    method RemoveFromSuperview()
      requires bridge.Valid()
      modifies bridge, bridge.views
      ensures bridge.Valid()
      ensures bridge.onMessage == None
      ensures bridge.initialized == old(bridge.initialized) && bridge.rootView == old(bridge.rootView)
      ensures bridge.calls == old(bridge.calls) +
        (if !old(bridge.initialized) then []
         else if autoUnloadOnUnmount then [BridgeCall.Unload]
         else [BridgeCall.Pause(true)])
      ensures bridge.views.parent == old(bridge.views.parent) - {id}
      ensures bridge.views.children == RemovedEverywhere(old(bridge.views.children), id)
      ensures bridge.views.frames == old(bridge.views.frames)
    {
      bridge.onMessage := None;
      if autoUnloadOnUnmount && bridge.initialized {
        bridge.Unload();
      } else if !autoUnloadOnUnmount && bridge.initialized {
        bridge.Pause(true);
      }
      bridge.views.RemoveFromParent(id);
    }
  }

  /** Mounting twice leaves the hierarchy as one mount does: the root view
      is held by this view once, and by no other view. */
  method MountTwice(view: ExpoUnityView, bounds: Rect)
    requires view.bridge.Valid() && view.id in view.bridge.views.children
    requires view.bridge.rootView.Some?
    modifies view.bridge.views
    ensures var r := view.bridge.rootView.value;
      && view.MountedHere()
      && (forall g :: g in view.bridge.views.children && r in view.bridge.views.children[g] ==> g == view.id)
  {
    view.MountUnityView(bounds);
    ghost var once := view.bridge.views.children;
    view.MountUnityView(bounds);
    assert view.bridge.views.children == once;
    view.bridge.views.ParentIsOnlyHolder(view.bridge.rootView.value);
  }

  /** Removing the view with `autoUnloadOnUnmount` cleared only pauses
      Unity, and a later setup calls no second `initialize`. */
  method RemoveAndSetUpAgain(view: ExpoUnityView, bounds: Rect, initializedAfter: bool, rootAfter: Option<ViewId>)
    requires view.bridge.Valid() && view.bridge.initialized && !view.autoUnloadOnUnmount
    requires view.id in view.bridge.views.children
    requires rootAfter.Some? ==> rootAfter.value !in view.bridge.views.children
    modifies view.bridge, view.bridge.views
    ensures view.bridge.calls == old(view.bridge.calls) + [BridgeCall.Pause(true)]
    ensures view.bridge.onMessage == Some(view.onUnityMessage)
  {
    view.RemoveFromSuperview();
    view.SetupUnity(bounds, initializedAfter, rootAfter);
  }
}
