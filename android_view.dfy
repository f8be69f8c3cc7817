/**
 * The Android `ExpoUnityView`: a container that, once set up, initializes
 * Unity if needed, makes itself the target of Unity's messages and takes
 * the player's frame layout as its last child; on detach from the window it
 * clears the message callback and unloads or pauses Unity according to
 * `autoUnloadOnUnmount`. The view's delayed `post { setupUnity() }` is the
 * caller invoking `SetupUnity`, and the posted event dispatch runs at once.
 */
module AndroidView {
  import opened Optional
  import opened HostViews
  import opened AndroidBridge

  class ExpoUnityView {
    /** This view, a container in the bridge's view hierarchy. */
    const id: ViewId
    /** The view's `onUnityMessage` event dispatcher. */
    const onUnityMessage: EventDispatcher
    /** The bridge singleton. */
    const bridge: UnityBridge
    /** Unload (true) or only pause (false) Unity when the view is detached. */
    var autoUnloadOnUnmount: bool

    constructor (id: ViewId, bridge: UnityBridge)
      ensures this.id == id && this.bridge == bridge && fresh(onUnityMessage)
      ensures onUnityMessage.dispatched == []
      ensures autoUnloadOnUnmount
    {
      this.id := id;
      this.bridge := bridge;
      onUnityMessage := new EventDispatcher();
      autoUnloadOnUnmount := true;
    }

    /** The `autoUnloadOnUnmount` prop setter. */
    method SetAutoUnloadOnUnmount(value: bool)
      modifies this
      ensures autoUnloadOnUnmount == value
    {
      autoUnloadOnUnmount := value;
    }

    /** `setupUnity`. Without a current activity nothing happens. Otherwise
        Unity is initialized only if it is not already (`created` is the
        outcome of the player constructor, as for `UnityBridge.Initialize`),
        the bridge's one message callback is overwritten to deliver to this
        view, and the player view is mounted here. */
    method SetupUnity(hasActivity: bool, created: Option<ViewId>)
      requires bridge.Valid() && id in bridge.views.children
      requires created.Some? ==> created.value !in bridge.views.parent && created.value !in bridge.views.children
      modifies bridge, bridge.proxy, bridge.views
      ensures bridge.Valid()
      ensures !hasActivity ==> unchanged(bridge, bridge.proxy, bridge.views)
      ensures hasActivity ==> bridge.onMessage == Some(onUnityMessage)
      ensures hasActivity && old(bridge.IsInitialized()) ==>
        bridge.unityPlayer == old(bridge.unityPlayer) && bridge.proxy.listener == old(bridge.proxy.listener)
      ensures hasActivity && !old(bridge.IsInitialized()) && created.None? ==>
        bridge.unityPlayer == null && unchanged(bridge.views) && bridge.proxy.listener == old(bridge.proxy.listener)
      ensures hasActivity && !old(bridge.IsInitialized()) && created.Some? ==>
        && bridge.unityPlayer != null && fresh(bridge.unityPlayer)
        && bridge.unityPlayer.frameLayout == created.value && bridge.unityPlayer.requests == []
        && bridge.proxy.listener == bridge
      ensures hasActivity && bridge.unityPlayer != null ==>
        && bridge.views.children == MovedTo(old(bridge.views.children), bridge.unityPlayer.frameLayout, id, false)
        && bridge.views.parent == old(bridge.views.parent)[bridge.unityPlayer.frameLayout := id]
      ensures bridge.wasRunningBeforeBackground == old(bridge.wasRunningBeforeBackground)
      ensures bridge.views.frames == old(bridge.views.frames)
    {
      if !hasActivity {
        return;
      }
      if !bridge.IsInitialized() {
        var _ := bridge.Initialize(false, created);
      }
      bridge.onMessage := Some(onUnityMessage);
      MountUnityView();
    }

    /** `mountUnityView`: with no player view nothing changes; otherwise the
        player view leaves its previous parent and becomes this view's last
        child, so this view is its one parent. */
    method MountUnityView()
      requires bridge.Valid() && id in bridge.views.children
      modifies bridge.views
      ensures bridge.Valid()
      ensures bridge.unityPlayer == null ==> unchanged(bridge.views)
      ensures bridge.unityPlayer != null ==>
        && bridge.views.children == MovedTo(old(bridge.views.children), bridge.unityPlayer.frameLayout, id, false)
        && bridge.views.parent == old(bridge.views.parent)[bridge.unityPlayer.frameLayout := id]
      ensures bridge.views.frames == old(bridge.views.frames)
    {
      var playerView := bridge.UnityPlayerView();
      if playerView.None? {
        return;
      }
      bridge.views.MoveToEnd(id, playerView.value);
    }

    /** `onDetachedFromWindow`: the message callback is always cleared; an
        initialized Unity is then unloaded when `autoUnloadOnUnmount` is set
        and paused otherwise, and an uninitialized one gets neither. */
    method OnDetachedFromWindow()
      modifies bridge, bridge.unityPlayer
      ensures bridge.onMessage == None
      ensures bridge.unityPlayer == old(bridge.unityPlayer)
      ensures bridge.wasRunningBeforeBackground == old(bridge.wasRunningBeforeBackground)
      ensures bridge.unityPlayer != null ==>
        bridge.unityPlayer.requests == old(bridge.unityPlayer.requests) +
          [if autoUnloadOnUnmount then PlayerRequest.Unload else PlayerRequest.Pause]
    {
      bridge.onMessage := None;
      if bridge.IsInitialized() {
        if autoUnloadOnUnmount {
          bridge.Unload();
        } else {
          bridge.SetPaused(true);
        }
      }
    }
  }

  /** Two views set up in turn: the later one receives Unity's messages and
      the earlier one nothing, since the bridge has one callback slot. */
  method LastSetupReceives(first: ExpoUnityView, second: ExpoUnityView, message: string)
    requires first.bridge == second.bridge && first.onUnityMessage != second.onUnityMessage
    requires first.bridge.Valid() && first.bridge.IsInitialized() && first.bridge.proxy.listener == first.bridge
    requires first.id in first.bridge.views.children && second.id in first.bridge.views.children
    modifies first.bridge, first.bridge.proxy, first.bridge.views, first.onUnityMessage, second.onUnityMessage
    ensures second.onUnityMessage.dispatched == old(second.onUnityMessage.dispatched) + [message]
    ensures first.onUnityMessage.dispatched == old(first.onUnityMessage.dispatched)
  {
    var bridge := first.bridge;
    SetUpInTurn(first, second);
    assert bridge.proxy.Receivers() == {second.onUnityMessage};
    bridge.proxy.SendMessageToMobileApp(message);
  }

  /** `first` and then `second` set up on an initialized bridge: the proxy
      still reports to the bridge, whose callback now reaches `second`. */
  method SetUpInTurn(first: ExpoUnityView, second: ExpoUnityView)
    requires first.bridge == second.bridge
    requires first.bridge.Valid() && first.bridge.IsInitialized() && first.bridge.proxy.listener == first.bridge
    requires first.id in first.bridge.views.children && second.id in first.bridge.views.children
    modifies first.bridge, first.bridge.proxy, first.bridge.views
    ensures first.bridge.proxy.listener == first.bridge
    ensures first.bridge.onMessage == Some(second.onUnityMessage)
  {
    var bridge := first.bridge;
    first.SetupUnity(true, None);
    assert bridge.IsInitialized() && bridge.proxy.listener == bridge;
    second.SetupUnity(true, None);
  }

  /** With `autoUnloadOnUnmount` set, detaching the view and the player's
      "unloaded" report leave Unity uninitialized and messages unrouted. */
  method DetachAndUnload(view: ExpoUnityView)
    requires view.bridge.Valid() && view.bridge.IsInitialized() && view.autoUnloadOnUnmount
    modifies view.bridge, view.bridge.unityPlayer
    ensures !view.bridge.IsInitialized() && view.bridge.onMessage == None
    ensures old(view.bridge.unityPlayer).requests == old(view.bridge.unityPlayer.requests) + [PlayerRequest.Unload]
  {
    view.OnDetachedFromWindow();
    view.bridge.OnUnityPlayerUnloaded();
  }

  /** With `autoUnloadOnUnmount` cleared, detaching only pauses Unity, so a
      later setup reuses the same player instead of creating another. */
  method DetachAndRemount(view: ExpoUnityView, created: Option<ViewId>)
    requires view.bridge.Valid() && view.bridge.IsInitialized() && !view.autoUnloadOnUnmount
    requires view.id in view.bridge.views.children
    requires created.Some? ==> created.value !in view.bridge.views.parent && created.value !in view.bridge.views.children
    modifies view.bridge, view.bridge.unityPlayer, view.bridge.proxy, view.bridge.views
    ensures view.bridge.unityPlayer == old(view.bridge.unityPlayer)
    ensures view.bridge.unityPlayer.requests == old(view.bridge.unityPlayer.requests) + [PlayerRequest.Pause]
    ensures view.bridge.onMessage == Some(view.onUnityMessage)
    ensures var frame := view.bridge.unityPlayer.frameLayout;
      frame in view.bridge.views.parent && view.bridge.views.parent[frame] == view.id
  {
    view.OnDetachedFromWindow();
    view.SetupUnity(true, created);
  }
}
