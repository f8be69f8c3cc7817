/**
 * The Android side of the bridge: the process-wide `UnityBridge` that owns
 * the single Unity player, and `NativeCallProxy`, the static slot through
 * which Unity's C# code sends messages back to the app. They share a module
 * because each refers to the other: the proxy's listener is the bridge.
 *
 * The Unity player is opaque. It is modelled as a handle with a frame
 * layout (the view it renders into) and the log of requests it has
 * received; its "unloaded" and "quit" notifications are the bridge methods
 * `OnUnityPlayerUnloaded` and `OnUnityPlayerQuitted`. Work the source posts
 * to the main thread runs at once here.
 */
module AndroidBridge {
  import opened Optional
  import opened HostViews

  /** A request made of the Unity player. */
  datatype PlayerRequest =
    | Pause
    | Resume
    | Unload
    | SendMessage(gameObject: string, methodName: string, message: string)

  /** The Unity player handle. */
  class UnityPlayer {
    /** The `FrameLayout` the player renders into (`unityPlayer.frameLayout`). */
    const frameLayout: ViewId
    /** Every request made of this player, oldest first. */
    var requests: seq<PlayerRequest>

    constructor (frame: ViewId)
      ensures frameLayout == frame && requests == []
    {
      frameLayout := frame;
      requests := [];
    }

    method Pause()
      modifies this
      ensures requests == old(requests) + [PlayerRequest.Pause]
    {
      requests := requests + [PlayerRequest.Pause];
    }

    method Resume()
      modifies this
      ensures requests == old(requests) + [PlayerRequest.Resume]
    {
      requests := requests + [PlayerRequest.Resume];
    }

    method Unload()
      modifies this
      ensures requests == old(requests) + [PlayerRequest.Unload]
    {
      requests := requests + [PlayerRequest.Unload];
    }

    /** `UnityPlayer.UnitySendMessage`, addressed to the running player. */
    method UnitySendMessage(gameObject: string, methodName: string, message: string)
      modifies this
      ensures requests == old(requests) + [PlayerRequest.SendMessage(gameObject, methodName, message)]
    {
      requests := requests + [PlayerRequest.SendMessage(gameObject, methodName, message)];
    }
  }

  /** `NativeCallProxy`: one static listener slot. Nothing is queued: a
      message sent while the slot is empty is dropped. */
  class NativeCallProxy {
    var listener: UnityBridge?

    constructor ()
      ensures listener == null
    {
      listener := null;
    }

    /** The dispatchers a message sent now would reach: the one the current
        listener's callback forwards to, if any. */
    function Receivers(): set<EventDispatcher>
      reads this, listener
    {
      if listener == null then {} else listener.MessageTarget()
    }

    /** `registerListener`: the new listener replaces any previous one, and
        nothing is delivered. */
    method RegisterListener(newListener: UnityBridge?)
      modifies this
      ensures listener == newListener
    {
      listener := newListener;
    }

    /** `sendMessageToMobileApp`: with a listener, that listener is handed
        exactly this message once; with none, nothing happens. */
    method SendMessageToMobileApp(message: string)
      modifies Receivers()
      ensures forall d :: d in old(Receivers()) ==> d.dispatched == old(d.dispatched) + [message]
    {
      if listener != null {
        listener.OnMessage(message);
      }
    }
  }

  /** The bridge singleton. */
  class UnityBridge {
    /** The player handle; null when Unity is not initialized. */
    var unityPlayer: UnityPlayer?
    /** The single message callback: the dispatcher of the view it forwards to. */
    var onMessage: Option<EventDispatcher>
    /** Whether Unity was running when the app last went to the background. */
    var wasRunningBeforeBackground: bool
    /** The static `NativeCallProxy` slot. */
    const proxy: NativeCallProxy
    /** The app's view hierarchy. */
    const views: ViewTree

    constructor (proxy: NativeCallProxy, views: ViewTree)
      ensures this.proxy == proxy && this.views == views
      ensures unityPlayer == null && onMessage == None && !wasRunningBeforeBackground
    {
      this.proxy := proxy;
      this.views := views;
      unityPlayer := null;
      onMessage := None;
      wasRunningBeforeBackground := false;
    }

    /** The hierarchy is consistent, and the player's frame layout is not one
        of the app's containers (its own content is Unity's business). */
    ghost predicate Valid()
      reads this, views, unityPlayer
    {
      views.Valid() && (unityPlayer != null ==> unityPlayer.frameLayout !in views.children)
    }

    /** `isInitialized`: exactly when there is a player handle. */
    predicate IsInitialized()
      reads this
    {
      unityPlayer != null
    }

    /** `unityPlayerView`: the player's frame layout, when there is a player,
        so there is a player view exactly when `isInitialized` holds. */
    function UnityPlayerView(): (r: Option<ViewId>)
      reads this
      ensures r.Some? <==> IsInitialized()
      ensures r.Some? ==> r.value == unityPlayer.frameLayout
    {
      if unityPlayer == null then None else Some(unityPlayer.frameLayout)
    }

    /** The dispatcher the callback forwards to, as a set of zero or one. */
    function MessageTarget(): set<EventDispatcher>
      reads this
    {
      if onMessage.Some? then {onMessage.value} else {}
    }

    /** `initialize(activity, onReady)`. On an initialized bridge nothing is
        created and `onReady` runs at once. Otherwise the player constructor
        runs: `created` is the frame layout of the new player, or None when the
        constructor throws. On success the handle is stored and the bridge
        registered as the proxy's listener before `onReady` runs; on failure
        the handle stays null and `onReady` does not run. Returns whether
        `onReady` ran (it can only run when one was passed). */
    method Initialize(hasOnReady: bool, created: Option<ViewId>) returns (readyInvoked: bool)
      requires Valid()
      requires created.Some? ==> created.value !in views.parent && created.value !in views.children
      modifies this, proxy
      ensures Valid()
      ensures old(IsInitialized()) ==>
        unityPlayer == old(unityPlayer) && proxy.listener == old(proxy.listener) && readyInvoked == hasOnReady
      ensures !old(IsInitialized()) && created.None? ==>
        unityPlayer == null && proxy.listener == old(proxy.listener) && !readyInvoked
      ensures !old(IsInitialized()) && created.Some? ==>
        && unityPlayer != null && fresh(unityPlayer)
        && unityPlayer.frameLayout == created.value && unityPlayer.requests == []
        && proxy.listener == this && readyInvoked == hasOnReady
      ensures onMessage == old(onMessage) && wasRunningBeforeBackground == old(wasRunningBeforeBackground)
    {
      if IsInitialized() {
        return hasOnReady;
      }
      match created {
        case None =>
          // The constructor threw: logged, nothing stored.
          return false;
        case Some(frame) =>
          var player := new UnityPlayer(frame);
          unityPlayer := player;
          proxy.RegisterListener(this);
          return hasOnReady;
      }
    }

    /** `attachToContainer(container)`: without a player nothing changes.
        Otherwise the frame layout leaves its old parent and becomes the first
        child of `container`, its only parent; the other children everywhere
        keep their relative order; then the player is resumed (the rendering
        kick-start). */
    method AttachToContainer(container: ViewId)
      requires Valid() && container in views.children
      modifies views, unityPlayer
      ensures Valid()
      ensures unityPlayer == null ==> unchanged(views)
      ensures unityPlayer != null ==>
        && views.children == MovedTo(old(views.children), unityPlayer.frameLayout, container, true)
        && views.parent == old(views.parent)[unityPlayer.frameLayout := container]
        && unityPlayer.requests == old(unityPlayer.requests) + [PlayerRequest.Resume]
      ensures views.frames == old(views.frames)
    {
      if unityPlayer == null {
        return;
      }
      views.MoveToFront(container, unityPlayer.frameLayout);
      unityPlayer.Resume();
    }

    /** `detachFromContainer`: the frame layout leaves its parent and has
        none; the player itself is untouched, so `isInitialized` is unchanged. */
    method DetachFromContainer()
      requires Valid()
      modifies views
      ensures Valid()
      ensures IsInitialized() == old(IsInitialized())
      ensures unityPlayer == null ==> unchanged(views)
      ensures unityPlayer != null ==>
        && unityPlayer.frameLayout !in views.parent
        && views.parent == old(views.parent) - {unityPlayer.frameLayout}
        && views.children == RemovedEverywhere(old(views.children), unityPlayer.frameLayout)
      ensures views.frames == old(views.frames)
    {
      if unityPlayer == null {
        return;
      }
      views.RemoveFromParent(unityPlayer.frameLayout);
    }

    /** `sendMessage`: nothing when uninitialized; otherwise the three
        strings are handed to the player unchanged. */
    method SendMessage(gameObject: string, methodName: string, message: string)
      modifies unityPlayer
      ensures unityPlayer != null ==>
        unityPlayer.requests == old(unityPlayer.requests) + [PlayerRequest.SendMessage(gameObject, methodName, message)]
    {
      if !IsInitialized() {
        return;
      }
      unityPlayer.UnitySendMessage(gameObject, methodName, message);
    }

    /** `setPaused`: nothing when uninitialized; otherwise a pause or resume. */
    method SetPaused(paused: bool)
      modifies unityPlayer
      ensures unityPlayer != null ==>
        unityPlayer.requests == old(unityPlayer.requests) + [if paused then PlayerRequest.Pause else PlayerRequest.Resume]
    {
      if !IsInitialized() {
        return;
      }
      if paused {
        unityPlayer.Pause();
      } else {
        unityPlayer.Resume();
      }
    }

    /** `unload`: nothing when uninitialized; otherwise the player is asked to
        unload. The handle is kept: only the player's notifications clear it. */
    method Unload()
      modifies unityPlayer
      ensures unityPlayer != null ==> unityPlayer.requests == old(unityPlayer.requests) + [PlayerRequest.Unload]
    {
      if !IsInitialized() {
        return;
      }
      unityPlayer.Unload();
    }

    /** `onUnityPlayerUnloaded`: the handle is cleared. */
    method OnUnityPlayerUnloaded()
      requires Valid()
      modifies this
      ensures Valid()
      ensures unityPlayer == null
      ensures onMessage == old(onMessage) && wasRunningBeforeBackground == old(wasRunningBeforeBackground)
    {
      unityPlayer := null;
    }

    /** `onUnityPlayerQuitted`: the handle is cleared. */
    method OnUnityPlayerQuitted()
      requires Valid()
      modifies this
      ensures Valid()
      ensures unityPlayer == null
      ensures onMessage == old(onMessage) && wasRunningBeforeBackground == old(wasRunningBeforeBackground)
    {
      unityPlayer := null;
    }

    /** `onMessage(message)` from the proxy: forwarded unchanged to the
        current callback, or dropped when there is none. */
    method OnMessage(message: string)
      modifies MessageTarget()
      ensures forall d :: d in MessageTarget() ==> d.dispatched == old(d.dispatched) + [message]
    {
      if onMessage.Some? {
        onMessage.value.Dispatch(message);
      }
    }
  }

  /** A second `initialize` creates no second player and still runs its
      `onReady`. */
  method InitializeTwice(bridge: UnityBridge, first: Option<ViewId>, second: Option<ViewId>)
    returns (secondReady: bool)
    requires bridge.Valid() && !bridge.IsInitialized()
    requires first.Some? && first.value !in bridge.views.parent && first.value !in bridge.views.children
    requires second.Some? ==> second.value !in bridge.views.parent && second.value !in bridge.views.children
    modifies bridge, bridge.proxy
    ensures bridge.IsInitialized() && bridge.unityPlayer.frameLayout == first.value
    ensures secondReady
  {
    var _ := bridge.Initialize(true, first);
    secondReady := bridge.Initialize(true, second);
  }

  /** Attaching to `a` and then to `b` leaves the frame layout in `b` alone. */
  method AttachTwice(bridge: UnityBridge, a: ViewId, b: ViewId)
    requires bridge.Valid() && bridge.IsInitialized()
    requires a in bridge.views.children && b in bridge.views.children
    modifies bridge.views, bridge.unityPlayer
    ensures var frame := bridge.unityPlayer.frameLayout;
      && frame in bridge.views.parent && bridge.views.parent[frame] == b
      && forall g :: g in bridge.views.children && frame in bridge.views.children[g] ==> g == b
  {
    bridge.AttachToContainer(a);
    MovedToMeaning(old(bridge.views.children), bridge.unityPlayer.frameLayout, a, true);
    bridge.AttachToContainer(b);
    bridge.views.ParentIsOnlyHolder(bridge.unityPlayer.frameLayout);
  }

  /** `unload` keeps the bridge initialized until the player reports that it
      has unloaded. */
  method UnloadThenNotified(bridge: UnityBridge) returns (initializedAfterUnload: bool)
    requires bridge.Valid() && bridge.IsInitialized()
    modifies bridge, bridge.unityPlayer
    ensures initializedAfterUnload
    ensures !bridge.IsInitialized()
  {
    bridge.Unload();
    initializedAfterUnload := bridge.IsInitialized();
    bridge.OnUnityPlayerUnloaded();
  }

  /** Messages are not queued: one sent before the bridge registers is lost,
      and registering delivers nothing. */
  method MessageBeforeRegistration(bridge: UnityBridge, view: EventDispatcher, message: string)
    requires bridge.proxy.listener == null && bridge.onMessage == Some(view)
    modifies bridge.proxy, view
    ensures view.dispatched == old(view.dispatched)
  {
    bridge.proxy.SendMessageToMobileApp(message);
    bridge.proxy.RegisterListener(bridge);
  }
}
