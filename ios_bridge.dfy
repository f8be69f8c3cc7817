/**
 * The iOS `UnityBridge` as its Objective-C header declares it: a shared
 * object with a nullable message callback, the queries `isInitialized` and
 * `unityRootView`, and the calls `initialize`, `sendMessage`, `pause` and
 * `unload`. Its implementation is not part of this model, so the bridge is
 * abstract: its queries are fields, every call is recorded in order, and
 * what `initialize` leaves behind is given by the caller.
 */
module IosBridge {
  import opened Optional
  import opened HostViews

  /** A call made on the bridge. */
  datatype BridgeCall =
    | Initialize
    | SendMessage(gameObject: string, methodName: string, message: string)
    | Pause(pause: bool)
    | Unload

  class UnityBridge {
    /** What `isInitialized` answers. */
    var initialized: bool
    /** The `onMessage` callback: the dispatcher of the view it forwards to. */
    var onMessage: Option<EventDispatcher>
    /** What `unityRootView` answers. */
    var rootView: Option<ViewId>
    /** Every call made on the bridge, oldest first. */
    var calls: seq<BridgeCall>
    /** The app's view hierarchy. */
    const views: ViewTree

    constructor (views: ViewTree)
      ensures this.views == views
      ensures !initialized && onMessage == None && rootView == None && calls == []
    {
      this.views := views;
      initialized := false;
      onMessage := None;
      rootView := None;
      calls := [];
    }

    /** The hierarchy is consistent, and Unity's root view is not one of the
        app's containers. */
    ghost predicate Valid()
      reads this, views
    {
      views.Valid() && (rootView.Some? ==> rootView.value !in views.children)
    }

    /** `initialize`: recorded; `initializedAfter` and `rootAfter` are what
        the implementation then reports through `isInitialized` and
        `unityRootView`. */
    method Initialize(initializedAfter: bool, rootAfter: Option<ViewId>)
      requires Valid() && (rootAfter.Some? ==> rootAfter.value !in views.children)
      modifies this
      ensures Valid()
      ensures calls == old(calls) + [BridgeCall.Initialize]
      ensures initialized == initializedAfter && rootView == rootAfter && onMessage == old(onMessage)
    {
      calls := calls + [BridgeCall.Initialize];
      initialized := initializedAfter;
      rootView := rootAfter;
    }

    /** `sendMessage:methodName:message:`, recorded. */
    method SendMessage(gameObject: string, methodName: string, message: string)
      modifies this
      ensures calls == old(calls) + [BridgeCall.SendMessage(gameObject, methodName, message)]
      ensures initialized == old(initialized) && rootView == old(rootView) && onMessage == old(onMessage)
    {
      calls := calls + [BridgeCall.SendMessage(gameObject, methodName, message)];
    }

    /** `pause:`, recorded. */
    method Pause(pause: bool)
      modifies this
      ensures calls == old(calls) + [BridgeCall.Pause(pause)]
      ensures initialized == old(initialized) && rootView == old(rootView) && onMessage == old(onMessage)
    {
      calls := calls + [BridgeCall.Pause(pause)];
    }

    /** `unload`, recorded. */
    method Unload()
      modifies this
      ensures calls == old(calls) + [BridgeCall.Unload]
      ensures initialized == old(initialized) && rootView == old(rootView) && onMessage == old(onMessage)
    {
      calls := calls + [BridgeCall.Unload];
    }
  }
}
