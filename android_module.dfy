/**
 * The Android Expo module `ExpoUnity`: the JavaScript-facing functions, which
 * forward to the bridge, and the activity lifecycle hooks, which pause Unity
 * when the app goes to the background, resume it when the app comes back,
 * and unload it when the activity is destroyed. The bridge's
 * `wasRunningBeforeBackground` flag carries the memory between the hooks.
 */
module AndroidModule {
  import opened AndroidBridge

  class ExpoUnityModule {
    /** The bridge singleton every function and hook goes through. */
    const bridge: UnityBridge

    constructor (bridge: UnityBridge)
      ensures this.bridge == bridge
    {
      this.bridge := bridge;
    }

    /** `postMessage`: the three strings reach the player unchanged, or
        nothing happens when Unity is not initialized. */
    method PostMessage(gameObject: string, methodName: string, message: string)
      modifies bridge.unityPlayer
      ensures unchanged(bridge)
      ensures bridge.unityPlayer != null ==>
        bridge.unityPlayer.requests == old(bridge.unityPlayer.requests) + [PlayerRequest.SendMessage(gameObject, methodName, message)]
    {
      bridge.SendMessage(gameObject, methodName, message);
    }

    /** `pauseUnity`: a pause or resume request, or nothing when Unity is not
        initialized. */
    method PauseUnity(pause: bool)
      modifies bridge.unityPlayer
      ensures unchanged(bridge)
      ensures bridge.unityPlayer != null ==>
        bridge.unityPlayer.requests == old(bridge.unityPlayer.requests) + [if pause then PlayerRequest.Pause else PlayerRequest.Resume]
    {
      bridge.SetPaused(pause);
    }

    /** `unloadUnity`: an unload request, or nothing when Unity is not
        initialized; the handle stays until the player reports it unloaded. */
    method UnloadUnity()
      modifies bridge.unityPlayer
      ensures unchanged(bridge)
      ensures bridge.unityPlayer != null ==>
        bridge.unityPlayer.requests == old(bridge.unityPlayer.requests) + [PlayerRequest.Unload]
    {
      bridge.Unload();
    }

    /** `isInitialized`: whether the bridge holds a player; reading it changes
        nothing. */
    function IsInitialized(): (r: bool)
      reads this, bridge
      ensures r <==> bridge.UnityPlayerView().Some?
    {
      bridge.IsInitialized()
    }

    /** `OnActivityEntersBackground`: the flag becomes whether Unity is
        initialized, and Unity is paused exactly when it is. */
    method OnActivityEntersBackground()
      modifies bridge, bridge.unityPlayer
      ensures bridge.wasRunningBeforeBackground == old(bridge.IsInitialized())
      ensures bridge.unityPlayer == old(bridge.unityPlayer) && bridge.onMessage == old(bridge.onMessage)
      ensures bridge.unityPlayer != null ==>
        bridge.unityPlayer.requests == old(bridge.unityPlayer.requests) + [PlayerRequest.Pause]
    {
      if bridge.IsInitialized() {
        bridge.wasRunningBeforeBackground := true;
        bridge.SetPaused(true);
      } else {
        bridge.wasRunningBeforeBackground := false;
      }
    }

    /** `OnActivityEntersForeground`: Unity is resumed exactly when the flag
        is set, and the flag is clear afterwards. */
    method OnActivityEntersForeground()
      modifies bridge, bridge.unityPlayer
      ensures !bridge.wasRunningBeforeBackground
      ensures bridge.unityPlayer == old(bridge.unityPlayer) && bridge.onMessage == old(bridge.onMessage)
      ensures bridge.unityPlayer != null ==>
        bridge.unityPlayer.requests == old(bridge.unityPlayer.requests) +
          (if old(bridge.wasRunningBeforeBackground) then [PlayerRequest.Resume] else [])
    {
      if bridge.wasRunningBeforeBackground {
        bridge.SetPaused(false);
        bridge.wasRunningBeforeBackground := false;
      }
    }

    /** `OnActivityDestroys`: Unity is asked to unload exactly when it is
        initialized. */
    method OnActivityDestroys()
      modifies bridge.unityPlayer
      ensures unchanged(bridge)
      ensures bridge.unityPlayer != null ==>
        bridge.unityPlayer.requests == old(bridge.unityPlayer.requests) + [PlayerRequest.Unload]
    {
      if bridge.IsInitialized() {
        bridge.Unload();
      }
    }
  }

  /** A trip to the background and back pauses and then resumes a running
      Unity, and leaves the flag clear. */
  method BackgroundThenForeground(m: ExpoUnityModule)
    requires m.bridge.IsInitialized()
    modifies m.bridge, m.bridge.unityPlayer
    ensures m.bridge.unityPlayer == old(m.bridge.unityPlayer) && !m.bridge.wasRunningBeforeBackground
    ensures m.bridge.unityPlayer.requests ==
      old(m.bridge.unityPlayer.requests) + [PlayerRequest.Pause, PlayerRequest.Resume]
  {
    m.OnActivityEntersBackground();
    m.OnActivityEntersForeground();
  }

  /** A second foreground event with no background event in between does
      nothing: two in a row act as one. */
  method ForegroundTwice(m: ExpoUnityModule)
    modifies m.bridge, m.bridge.unityPlayer
    ensures !m.bridge.wasRunningBeforeBackground && m.bridge.unityPlayer == old(m.bridge.unityPlayer)
    ensures m.bridge.unityPlayer != null ==>
      m.bridge.unityPlayer.requests == old(m.bridge.unityPlayer.requests) +
        (if old(m.bridge.wasRunningBeforeBackground) then [PlayerRequest.Resume] else [])
  {
    m.OnActivityEntersForeground();
    m.OnActivityEntersForeground();
  }

  /** The flag records only that Unity was initialized, not that the app had
      paused it: a Unity paused through `pauseUnity` before the app went to
      the background is still resumed when it comes back. */
  method DeveloperPauseIsResumed(m: ExpoUnityModule)
    requires m.bridge.IsInitialized()
    modifies m.bridge, m.bridge.unityPlayer
    ensures m.bridge.unityPlayer == old(m.bridge.unityPlayer)
    ensures m.bridge.unityPlayer.requests ==
      old(m.bridge.unityPlayer.requests) + [PlayerRequest.Pause, PlayerRequest.Pause, PlayerRequest.Resume]
  {
    m.PauseUnity(true);
    m.OnActivityEntersBackground();
    m.OnActivityEntersForeground();
  }

  /** Background, foreground and destroy hooks on an uninitialized bridge
      request nothing and leave it uninitialized. */
  method HooksWhileUninitialized(m: ExpoUnityModule)
    requires !m.bridge.IsInitialized()
    modifies m.bridge
    ensures !m.bridge.IsInitialized() && !m.bridge.wasRunningBeforeBackground
    ensures m.bridge.onMessage == old(m.bridge.onMessage)
  {
    m.OnActivityEntersBackground();
    m.OnActivityEntersForeground();
    m.OnActivityDestroys();
  }
}
