/**
 * The iOS app-delegate subscriber: it pauses Unity when the app resigns
 * active, resumes it when the app becomes active again if it had paused it,
 * and unloads it when the app terminates. The `wasRunningBeforeBackground`
 * flag is a static of the subscriber class, so every instance shares it; it
 * is modelled as one `SubscriberStatics` object the instances refer to.
 */
module IosSubscriber {
  import opened IosBridge

  /** The static storage of the subscriber class. */
  class SubscriberStatics {
    var wasRunningBeforeBackground: bool

    constructor ()
      ensures !wasRunningBeforeBackground
    {
      wasRunningBeforeBackground := false;
    }
  }

  class ExpoUnityAppDelegateSubscriber {
    const statics: SubscriberStatics
    /** `UnityBridge.shared()`. */
    const bridge: UnityBridge

    constructor (statics: SubscriberStatics, bridge: UnityBridge)
      ensures this.statics == statics && this.bridge == bridge
    {
      this.statics := statics;
      this.bridge := bridge;
    }

    /** `applicationWillResignActive`: the flag becomes `isInitialized`, and
        `pause(true)` is called exactly when it holds. */
    method ApplicationWillResignActive()
      modifies statics, bridge
      ensures statics.wasRunningBeforeBackground == old(bridge.initialized)
      ensures bridge.calls == old(bridge.calls) + (if old(bridge.initialized) then [BridgeCall.Pause(true)] else [])
      ensures bridge.initialized == old(bridge.initialized) && bridge.rootView == old(bridge.rootView)
      ensures bridge.onMessage == old(bridge.onMessage)
    {
      if bridge.initialized {
        statics.wasRunningBeforeBackground := true;
        bridge.Pause(true);
      } else {
        statics.wasRunningBeforeBackground := false;
      }
    }

    /** `applicationDidBecomeActive`: `pause(false)` exactly when the flag is
        set, and the flag is clear afterwards. */
    method ApplicationDidBecomeActive()
      modifies statics, bridge
      ensures !statics.wasRunningBeforeBackground
      ensures bridge.calls == old(bridge.calls) +
        (if old(statics.wasRunningBeforeBackground) then [BridgeCall.Pause(false)] else [])
      ensures bridge.initialized == old(bridge.initialized) && bridge.rootView == old(bridge.rootView)
      ensures bridge.onMessage == old(bridge.onMessage)
    {
      if statics.wasRunningBeforeBackground {
        bridge.Pause(false);
        statics.wasRunningBeforeBackground := false;
      }
    }

    /** `applicationWillTerminate`: `unload` exactly when Unity is
        initialized; the flag is untouched. */
    method ApplicationWillTerminate()
      modifies bridge
      ensures bridge.calls == old(bridge.calls) + (if old(bridge.initialized) then [BridgeCall.Unload] else [])
      ensures bridge.initialized == old(bridge.initialized) && bridge.rootView == old(bridge.rootView)
      ensures bridge.onMessage == old(bridge.onMessage)
    {
      if bridge.initialized {
        bridge.Unload();
      }
    }
  }

  /** The flag is shared: one subscriber instance sees the app resign active
      and another sees it become active again, and Unity is still resumed. */
  method SharedFlag(statics: SubscriberStatics, bridge: UnityBridge)
    requires bridge.initialized
    modifies statics, bridge
    ensures bridge.calls == old(bridge.calls) + [BridgeCall.Pause(true), BridgeCall.Pause(false)]
    ensures !statics.wasRunningBeforeBackground
  {
    var first := new ExpoUnityAppDelegateSubscriber(statics, bridge);
    var second := new ExpoUnityAppDelegateSubscriber(statics, bridge);
    first.ApplicationWillResignActive();
    second.ApplicationDidBecomeActive();
  }

  /** A second become-active with no resign-active in between calls nothing. */
  method BecomeActiveTwice(s: ExpoUnityAppDelegateSubscriber)
    modifies s.statics, s.bridge
    ensures s.bridge.calls == old(s.bridge.calls) +
      (if old(s.statics.wasRunningBeforeBackground) then [BridgeCall.Pause(false)] else [])
    ensures !s.statics.wasRunningBeforeBackground
  {
    s.ApplicationDidBecomeActive();
    s.ApplicationDidBecomeActive();
  }

  /** As on Android, the flag does not remember a pause the app made itself:
      Unity paused through the bridge before the app resigned active is
      resumed when it becomes active. */
  method AppPauseIsResumed(s: ExpoUnityAppDelegateSubscriber)
    requires s.bridge.initialized
    modifies s.statics, s.bridge
    ensures s.bridge.calls ==
      old(s.bridge.calls) + [BridgeCall.Pause(true), BridgeCall.Pause(true), BridgeCall.Pause(false)]
  {
    s.bridge.Pause(true);
    s.ApplicationWillResignActive();
    s.ApplicationDidBecomeActive();
  }
}
