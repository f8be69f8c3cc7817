# Unity-in-React-Native bridge: lifecycle and build patching, in Dafny

This project models the two parts of the Expo Unity bridge module whose
behaviour can be stated precisely.

1. **The lifecycle of the single embedded Unity player.** On Android this covers:
   - the `UnityBridge` singleton, which holds the player handle, the one
     message-callback slot and the `wasRunningBeforeBackground` flag;
   - the `NativeCallProxy` listener slot that Unity's C# code sends messages
     through;
   - the Expo module's forwarding functions and activity lifecycle hooks;
   - the `ExpoUnityView` mount and unmount policy.

   On iOS it covers the app-delegate subscriber and the device branch of
   `ExpoUnityView`. Both drive an abstract `UnityBridge` that has exactly the
   operations its Objective-C header declares.

2. **The config plugin's build-file patching (`app.plugin.js`).** This covers:
   - the simplified `.properties` line parser;
   - the key-filtered, append-only merge of Unity's `gradle.properties` into
     the host's;
   - the `include` lines appended to `settings.gradle`;
   - the dependency and `abiFilters` snippets inserted into `app/build.gradle`.

Singletons (`UnityBridge.getInstance()`, `UnityBridge.shared()`, the static
slot of `NativeCallProxy`, the static flag of the iOS subscriber) are explicit
objects that the other classes hold. View hierarchies, on both Android and
iOS, are one `ViewTree`:
- a parent map;
- each container's ordered children;
- view frames.

The Unity player is an opaque handle that logs the requests made of it.

Files:
- `text.dfy` (`Optional`, `Text`): JavaScript's `trim`, `indexOf`,
  `includes`, `split('\n')` and the `\s` class.
- `properties.dfy` (`GradleProperties`): `parsePropertiesFile` and the
  `gradle.properties` merge.
- `gradle_scripts.dfy` (`GradleScripts`): the `settings.gradle` and
  `app/build.gradle` patches.
- `host_views.dfy` (`HostViews`): the view hierarchy and event dispatchers.
- `android_bridge.dfy` (`AndroidBridge`): `UnityPlayer`, `NativeCallProxy`
  and `UnityBridge`.
- `android_module.dfy` (`AndroidModule`): `ExpoUnityModule`.
- `android_view.dfy` (`AndroidView`): `ExpoUnityView`.
- `ios_bridge.dfy` (`IosBridge`): the abstract iOS `UnityBridge`.
- `ios_subscriber.dfy` (`IosSubscriber`): `ExpoUnityAppDelegateSubscriber`.
- `ios_view.dfy` (`IosView`): `ExpoUnityView`.

Where the code's own comments and its statements disagree, the model
follows the statements.
- **Developer pauses.** The comment at
  ios/ExpoUnityAppDelegateSubscriber.swift:7-8 says that returning to the
  foreground resumes Unity only if the system, not the app, had paused it.
  But both the Android hooks (ExpoUnityModule.kt:37-53) and the iOS
  subscriber set the flag to "is initialized", so a Unity the app had paused
  itself is still resumed. `DeveloperPauseIsResumed`
  and `AppPauseIsResumed` show this.
- **Unloading on Android.** `unload` only asks the player to unload. The
  handle, and so `isInitialized`, is cleared only by the player's "unloaded"
  and "quit" notifications.

## Model

| member | source | states |
|---|---|---|
| Text.TrimStartMeaning | app.plugin.js:20 | the result is a suffix of the input, everything cut is JavaScript white space, and it does not start with white space |
| Text.TrimEndMeaning | app.plugin.js:20 | the result is a prefix of the input, everything cut is white space, and it does not end with white space |
| Text.TrimMeaning | app.plugin.js:20 | `trim()`: the result is a slice of the input with only white space around it, and it neither starts nor ends with white space |
| Text.IndexOf | app.plugin.js:22 | `indexOf`: -1 exactly when the character is absent; otherwise a position holding it with no earlier occurrence |
| Text.ContainsMeaning | app.plugin.js:126 | `includes`: true exactly when some position starts an occurrence of the searched text |
| Text.SplitLines | app.plugin.js:17 | `split('\n')` yields at least one line, and no line holds a line feed |
| Text.SplitLinesJoin | app.plugin.js:17 | joining the split lines with line feeds gives back the original text |
| Text.SkipWhiteSpace | app.plugin.js:252 | a greedy `\s*` from a position stops at the end or at the first non-white-space character, having passed only white space |
| GradleProperties.ParseLineMeaning | app.plugin.js:20-28 | a line yields an entry exactly when its trimmed text is non-empty, does not start with `#` or `!`, and holds `=`; the entry is a property whose key is the trimmed text before the first `=` (so it holds no `=`) and whose value is the trimmed rest |
| GradleProperties.NoEqualsInSlice | app.plugin.js:26 | trimming text that holds no `=` gives text that holds no `=` |
| GradleProperties.ParsedEntriesShape | app.plugin.js:17-30 | there are never more entries than lines, and every entry is a property |
| GradleProperties.ParsedEntriesAppend | app.plugin.js:19-29 | entries keep source-line order: two runs of lines give the first run's entries followed by the second's |
| GradleProperties.SingleLineEntries | app.plugin.js:19-29 | a single line contributes its own entry or nothing |
| GradleProperties.FileEntries | app.plugin.js:16-17 | a missing file gives no entries, and every entry of a file is a property |
| GradleProperties.ParsePropertiesFile | app.plugin.js:15-31 | the line loop yields exactly the entries of the file's lines, in order |
| GradleProperties.AppendedMembers | app.plugin.js:214-221 | an entry is appended exactly when it is in the Unity file, its key starts with `unity.` or is `unityStreamingAssets` or `unityTemplateVersion`, and the host lacked that key; never more entries than the Unity file has |
| GradleProperties.AppendedNone | app.plugin.js:214-221 | nothing is appended when the host already has every qualifying key |
| GradleProperties.MergedKeys | app.plugin.js:208-221 | after the merge the host's keys are its old keys plus every key of the Unity file that starts with `unity.` or is `unityStreamingAssets` or `unityTemplateVersion`, and nothing else |
| GradleProperties.MergeIdempotent | app.plugin.js:208-221 | a second merge of the same Unity file adds nothing |
| GradleProperties.DuplicatesAppendedTogether | app.plugin.js:208-221 | a qualifying key repeated in the Unity file and absent from the host is appended every time in one pass, because the host keys are captured before the loop |
| GradleProperties.PropertiesMod.MergeUnityProperties | app.plugin.js:208-221 | the merge loop leaves the host list followed by exactly the selected Unity entries |
| GradleProperties.PropertiesMod.WithGradleProperties | app.plugin.js:204-221 | the step merges the parsed Unity file, and the host list is an unchanged prefix of the result |
| GradleScripts.IncludeUnityLibrary | app.plugin.js:123-129 | afterwards the contents include `include ':unityLibrary'`; already-including contents are unchanged; otherwise the old contents are a strict prefix |
| GradleScripts.Subprojects | app.plugin.js:132-136 | the subprojects are exactly the listing's names ending in `.androidlib` that hold a `build.gradle`, and none when the directory is missing |
| GradleScripts.FilterSubprojects | app.plugin.js:133-136 | the filter keeps exactly the names ending in `.androidlib` with a `build.gradle` |
| GradleScripts.AppendIfAbsent | app.plugin.js:139-142 | one subproject's include line is present afterwards, the old contents are a prefix, and contents already holding it are unchanged |
| GradleScripts.AppendSubprojectsIncludesAll | app.plugin.js:138-143 | the loop only appends, and every subproject's include line is present afterwards |
| GradleScripts.AppendSubprojectsNoOp | app.plugin.js:138-143 | contents already including every subproject are left unchanged |
| GradleScripts.SettingsGradleIdempotent | app.plugin.js:126-143 | the settings step only appends, includes `:unityLibrary` and every subproject, and a second run with the same inputs changes nothing |
| GradleScripts.SettingsMod.AppendSubprojectLines | app.plugin.js:138-143 | the in-place loop over the subprojects leaves exactly the contents `AppendSubprojects` computes from the old contents, whose properties the two lemmas above state |
| GradleScripts.SettingsMod.WithSettingsGradle | app.plugin.js:113-147 | the in-place step leaves the contents the settings step computes from the old contents and the discovered subprojects |
| GradleScripts.MatchAt | app.plugin.js:252 | the match of `<keyword>\s*\{` starting at a position, if any, and no match there otherwise |
| GradleScripts.FirstMatch | app.plugin.js:252-257 | the leftmost match, with no match at any earlier position, or no match anywhere |
| GradleScripts.InsertAfterFirstMatch | app.plugin.js:253-257 | `replace(re, m => m + insertion)`: the text unchanged without a match; otherwise the insertion placed right after the first match and everything else kept |
| GradleScripts.AddUnityDependency | app.plugin.js:250-259 | the dependency is inserted after the first `dependencies<ws>{` only when it is absent and the pattern occurs; otherwise the text is unchanged; the result holds it exactly when the input did or the pattern occurred |
| GradleScripts.InsertedContains | app.plugin.js:253-257 | whatever the inserted text contains, the patched text contains |
| GradleScripts.AddAbiFilters | app.plugin.js:261-271 | the `abiFilters` line is inserted after the first `defaultConfig<ws>{` unless `abiFilters` appears anywhere or the pattern is missing; the result mentions `abiFilters` exactly when the input did or the pattern occurred |
| GradleScripts.AbiSnippetNamesAbiFilters | app.plugin.js:262-263 | the inserted snippet itself mentions `abiFilters`, which is what makes the guard effective |
| GradleScripts.InsertionsIdempotent | app.plugin.js:250-271 | each insertion leaves its own output unchanged |
| GradleScripts.InsertionKeeps | app.plugin.js:253-257 | the insertion goes in right after a `{`, so any text without `{` contained before is still contained after |
| GradleScripts.AppBuildGradle | app.plugin.js:246-275 | the step: once the dependency is present after the first insertion it survives the `abiFilters` insertion; the result names `abiFilters` exactly when the text did after the first insertion or has a `defaultConfig<ws>{` block |
| HostViews.Without | android/src/main/java/expo/modules/unity/UnityBridge.kt:116 | removing a child keeps exactly the other children, changes nothing when it is absent, and keeps a list free of repeats |
| HostViews.WithoutRemovesAt | android/src/main/java/expo/modules/unity/UnityBridge.kt:116 | in a list without repeats, removal by value is removal of the one index holding it |
| HostViews.RemovedEverywhere | android/src/main/java/expo/modules/unity/UnityBridge.kt:140 | after a view leaves the hierarchy, no container holds it, and every container keeps its other children |
| HostViews.MovedToMeaning | android/src/main/java/expo/modules/unity/UnityBridge.kt:116-122 | after a move the target is the one container holding the view; every other view is held where it was; the target's other children keep their order; no repeats appear |
| HostViews.MovedToAfterRemove | android/src/main/java/expo/modules/unity/UnityBridge.kt:116-122 | a move is exactly the removal of the view from every container followed by its insertion at the front or the end of the target, which is how the re-parenting idiom performs it |
| HostViews.WithoutIdempotent | android/src/main/java/expo/modules/unity/UnityBridge.kt:116 | removing twice is removing once, and removing a just-added view undoes the addition |
| HostViews.ConsistentAfterInsert | android/src/main/java/expo/modules/unity/UnityBridge.kt:122 | giving a parentless view a parent whose children gain exactly that view, without repeats, keeps the hierarchy consistent |
| HostViews.ConsistentAfterRemove | android/src/main/java/expo/modules/unity/UnityBridge.kt:116 | taking a child out of its parent and clearing its parent keeps the hierarchy consistent |
| HostViews.InsertAtMembers | android/src/main/java/expo/modules/unity/UnityBridge.kt:122 | inserting an unlisted view at any index lists it once and keeps every other child |
| HostViews.ViewTree.ParentIsOnlyHolder | android/src/main/java/expo/modules/unity/UnityBridge.kt:116 | in a consistent hierarchy only a view's parent holds it, and a view without a parent is held by no container |
| HostViews.ViewTree.RemoveView | android/src/main/java/expo/modules/unity/UnityBridge.kt:116 | `removeView` takes the child out of that container, the others keeping their order, and clears its parent; otherwise nothing changes |
| HostViews.ViewTree.AddView | android/src/main/java/expo/modules/unity/ExpoUnityView.kt:54-60 | `addView` appends the child and makes the container its parent |
| HostViews.ViewTree.AddViewAt | android/src/main/java/expo/modules/unity/UnityBridge.kt:122 | `addView(child, index)` inserts the child at that position and makes the container its parent |
| HostViews.ViewTree.RemoveFromParent | android/src/main/java/expo/modules/unity/UnityBridge.kt:140 | detaching from the current parent leaves the view with no parent, held by no container |
| HostViews.ViewTree.MoveToFront | android/src/main/java/expo/modules/unity/UnityBridge.kt:116-122 | remove from the old parent, then insert at index 0: the view moves to the front of the container |
| HostViews.ViewTree.MoveToEnd | android/src/main/java/expo/modules/unity/ExpoUnityView.kt:52-60 | remove from the old parent, then append (UIKit `addSubview` too): the view moves to the end of the container |
| HostViews.ViewTree.SetFrame | ios/ExpoUnityView.swift:83 | assigning a frame changes only that view's frame |
| HostViews.EventDispatcher.Dispatch | android/src/main/java/expo/modules/unity/ExpoUnityView.kt:36-40 | an event carries the message to the app, once |
| AndroidBridge.NativeCallProxy.RegisterListener | android/src/main/java/com/expounity/bridge/NativeCallProxy.java:20-22 | the new listener replaces the old one, and nothing is delivered |
| AndroidBridge.NativeCallProxy.SendMessageToMobileApp | android/src/main/java/com/expounity/bridge/NativeCallProxy.java:24-28 | with a listener, its target receives exactly this message, once; with none, nothing changes |
| AndroidBridge.UnityBridge.UnityPlayerView | android/src/main/java/expo/modules/unity/UnityBridge.kt:50-59 | the `unityPlayerView` getter yields a view exactly when the `isInitialized` getter holds, and that view is the player's frame layout |
| AndroidBridge.UnityBridge.Initialize | android/src/main/java/expo/modules/unity/UnityBridge.kt:65-103 | initialized: no new player, `onReady` runs at once. Otherwise success stores a fresh player, registers the bridge with the proxy and runs `onReady`; a throwing constructor leaves the handle null and runs no `onReady` |
| AndroidBridge.UnityBridge.AttachToContainer | android/src/main/java/expo/modules/unity/UnityBridge.kt:109-133 | without a player nothing changes; otherwise the frame is moved to index 0 of the container, its one parent, the other children keeping their order, and the player is resumed; frames are untouched |
| AndroidBridge.UnityBridge.DetachFromContainer | android/src/main/java/expo/modules/unity/UnityBridge.kt:138-142 | the frame has no parent afterwards, every other parent link and child list is kept, frames are untouched, and `isInitialized` is unchanged |
| AndroidBridge.UnityBridge.SendMessage | android/src/main/java/expo/modules/unity/UnityBridge.kt:144-147 | nothing when uninitialized; otherwise the three strings reach the player unchanged |
| AndroidBridge.UnityBridge.SetPaused | android/src/main/java/expo/modules/unity/UnityBridge.kt:149-163 | nothing when uninitialized; otherwise one pause or resume request |
| AndroidBridge.UnityBridge.Unload | android/src/main/java/expo/modules/unity/UnityBridge.kt:165-177 | nothing when uninitialized; otherwise one unload request, and the handle is kept |
| AndroidBridge.UnityBridge.OnUnityPlayerUnloaded | android/src/main/java/expo/modules/unity/UnityBridge.kt:181-184 | the handle becomes null; nothing else changes |
| AndroidBridge.UnityBridge.OnUnityPlayerQuitted | android/src/main/java/expo/modules/unity/UnityBridge.kt:186-189 | the handle becomes null; nothing else changes |
| AndroidBridge.UnityBridge.OnMessage | android/src/main/java/expo/modules/unity/UnityBridge.kt:193-195 | the message goes unchanged to the current callback, or is dropped when there is none |
| AndroidBridge.InitializeTwice | android/src/main/java/expo/modules/unity/UnityBridge.kt:66-69 | a second `initialize` keeps the first player, and the result says it still runs its `onReady` |
| AndroidBridge.AttachTwice | android/src/main/java/expo/modules/unity/UnityBridge.kt:109-122 | after attaching to one container and then another, only the second holds the frame |
| AndroidBridge.UnloadThenNotified | android/src/main/java/expo/modules/unity/UnityBridge.kt:165-184 | the bridge stays initialized after `unload` (the result reports `isInitialized` right after it) and is uninitialized only after the "unloaded" notification |
| AndroidBridge.MessageBeforeRegistration | android/src/main/java/com/expounity/bridge/NativeCallProxy.java:18-28 | a message sent before registration is lost, and registering delivers nothing |
| AndroidModule.ExpoUnityModule.PostMessage | android/src/main/java/expo/modules/unity/ExpoUnityModule.kt:13-15 | forwards the strings unchanged, doing nothing when uninitialized |
| AndroidModule.ExpoUnityModule.PauseUnity | android/src/main/java/expo/modules/unity/ExpoUnityModule.kt:17-19 | forwards the pause flag, doing nothing when uninitialized |
| AndroidModule.ExpoUnityModule.UnloadUnity | android/src/main/java/expo/modules/unity/ExpoUnityModule.kt:21-23 | forwards the unload, doing nothing when uninitialized |
| AndroidModule.ExpoUnityModule.IsInitialized | android/src/main/java/expo/modules/unity/ExpoUnityModule.kt:25-27 | true exactly when the bridge has a player view, and reads without changing anything |
| AndroidModule.ExpoUnityModule.OnActivityEntersBackground | android/src/main/java/expo/modules/unity/ExpoUnityModule.kt:37-45 | the flag becomes `isInitialized`, and a pause is requested exactly when Unity is initialized |
| AndroidModule.ExpoUnityModule.OnActivityEntersForeground | android/src/main/java/expo/modules/unity/ExpoUnityModule.kt:47-53 | a resume is requested exactly when the flag was set; the flag is clear afterwards |
| AndroidModule.ExpoUnityModule.OnActivityDestroys | android/src/main/java/expo/modules/unity/ExpoUnityModule.kt:55-60 | an unload is requested exactly when Unity is initialized |
| AndroidModule.BackgroundThenForeground | android/src/main/java/expo/modules/unity/ExpoUnityModule.kt:37-53 | on a running Unity, background then foreground requests a pause then a resume and clears the flag |
| AndroidModule.ForegroundTwice | android/src/main/java/expo/modules/unity/ExpoUnityModule.kt:47-53 | two foreground events in a row have the effect of one |
| AndroidModule.DeveloperPauseIsResumed | android/src/main/java/expo/modules/unity/ExpoUnityModule.kt:39-50 | a Unity paused through `pauseUnity` before backgrounding is still resumed on foregrounding |
| AndroidModule.HooksWhileUninitialized | android/src/main/java/expo/modules/unity/ExpoUnityModule.kt:37-60 | on an uninitialized bridge the hooks request nothing and leave the flag clear |
| AndroidView.ExpoUnityView.SetAutoUnloadOnUnmount | android/src/main/java/expo/modules/unity/ExpoUnityModule.kt:32-34 | the prop setter stores the value |
| AndroidView.ExpoUnityView.SetupUnity | android/src/main/java/expo/modules/unity/ExpoUnityView.kt:24-43 | no activity: nothing changes. Otherwise `initialize` runs only when uninitialized (a throwing player constructor leaves the handle null, the hierarchy and the proxy's listener untouched), this view's dispatcher overwrites the single callback, and the player view is mounted here |
| AndroidView.ExpoUnityView.MountUnityView | android/src/main/java/expo/modules/unity/ExpoUnityView.kt:45-63 | no player view: nothing changes; otherwise the player view leaves its old parent and is appended here, its one parent |
| AndroidView.ExpoUnityView.OnDetachedFromWindow | android/src/main/java/expo/modules/unity/ExpoUnityView.kt:75-90 | the callback is always cleared; an initialized Unity is unloaded if `autoUnloadOnUnmount` is set and paused otherwise; an uninitialized one gets neither |
| AndroidView.LastSetupReceives | android/src/main/java/expo/modules/unity/ExpoUnityView.kt:36-40 | after two views are set up, only the later one receives Unity's messages |
| AndroidView.DetachAndUnload | android/src/main/java/expo/modules/unity/ExpoUnityView.kt:79-82 | with auto-unload, detach plus the "unloaded" notification leaves Unity uninitialized and messages unrouted |
| AndroidView.DetachAndRemount | android/src/main/java/expo/modules/unity/ExpoUnityView.kt:83-85 | without auto-unload, detaching only pauses, and a later setup reuses the same player and mounts it here |
| IosBridge.UnityBridge.Initialize | ios/UnityBridge.h:16 | `initialize` is recorded; what it leaves behind is the implementation's |
| IosBridge.UnityBridge.SendMessage | ios/UnityBridge.h:17-19 | `sendMessage` is recorded with its three strings |
| IosBridge.UnityBridge.Pause | ios/UnityBridge.h:20 | `pause:` is recorded with its flag |
| IosBridge.UnityBridge.Unload | ios/UnityBridge.h:21 | `unload` is recorded |
| IosSubscriber.ExpoUnityAppDelegateSubscriber.ApplicationWillResignActive | ios/ExpoUnityAppDelegateSubscriber.swift:11-20 | the shared flag becomes `isInitialized`, and `pause(true)` is called exactly when it holds |
| IosSubscriber.ExpoUnityAppDelegateSubscriber.ApplicationDidBecomeActive | ios/ExpoUnityAppDelegateSubscriber.swift:22-28 | `pause(false)` is called exactly when the flag is set, which is clear afterwards |
| IosSubscriber.ExpoUnityAppDelegateSubscriber.ApplicationWillTerminate | ios/ExpoUnityAppDelegateSubscriber.swift:30-35 | `unload` is called exactly when Unity is initialized |
| IosSubscriber.SharedFlag | ios/ExpoUnityAppDelegateSubscriber.swift:9 | the static flag starts false and is shared: one instance's resign-active lets another's become-active resume |
| IosSubscriber.BecomeActiveTwice | ios/ExpoUnityAppDelegateSubscriber.swift:22-28 | a second become-active with no resign-active in between calls nothing |
| IosSubscriber.AppPauseIsResumed | ios/ExpoUnityAppDelegateSubscriber.swift:11-28 | a Unity the app paused before resigning active is resumed on becoming active |
| IosView.ExpoUnityView.MountUnityView | ios/ExpoUnityView.swift:69-87 | no root view: nothing changes. Otherwise the root view gets this view's bounds and is added as a subview only when it is not one already, so this view is its one superview |
| IosView.ExpoUnityView.LayoutSubviews | ios/ExpoUnityView.swift:89-98 | a root view mounted here is only resized; otherwise a mount is attempted; the effect equals that of a mount |
| IosView.ExpoUnityView.SetupUnity | ios/ExpoUnityView.swift:51-67 | `initialize` is called only when uninitialized, this view's dispatcher overwrites the callback, and the root view is mounted here: the hierarchy is unchanged if it already was, otherwise the root view alone moves to the end of this view, and only its frame changes |
| IosView.ExpoUnityView.RemoveFromSuperview | ios/ExpoUnityView.swift:100-113 | the callback is always cleared; an initialized Unity is unloaded if `autoUnloadOnUnmount` is set and paused otherwise; an uninitialized one gets neither; the view leaves its superview, every other link is kept, and no frame changes |
| IosView.MountTwice | ios/ExpoUnityView.swift:83-86 | mounting twice never adds the root view twice: this view is its only holder |
| IosView.RemoveAndSetUpAgain | ios/ExpoUnityView.swift:104-110 | without auto-unload, removal only pauses, and a later setup calls no second `initialize` |
| AndroidView.ExpoUnityView.constructor | android/src/main/java/expo/modules/unity/ExpoUnityView.kt:17-18 | `autoUnloadOnUnmount` defaults to true, and the view starts with its own event dispatcher |
| IosView.ExpoUnityView.constructor | ios/ExpoUnityView.swift:5-6 | `autoUnloadOnUnmount` defaults to true, and the view starts with its own event dispatcher |
| IosSubscriber.SubscriberStatics.constructor | ios/ExpoUnityAppDelegateSubscriber.swift:9 | the static flag starts false |

## Left out

- File-system access (`existsSync`, `readFileSync`, `readdirSync`) is not modelled. A missing file is `None`, a file is its text, and a directory is its listing plus the set of entries holding a `build.gradle`.
- Resolving the Unity export path from options, environment and project root is not modelled; the `unityLibrary` directory is a parameter.
- The Xcode build settings and the embed-framework build phase, the manifest LAUNCHER-stripping regexes and the `allprojects … repositories {` flat-dir insertion are left out. They depend on the Xcode project API or on regular-expression semantics beyond a keyword, white space and a brace.
- Strings are sequences of Unicode scalar values, not UTF-16 code units. A file holding characters outside the Basic Multilingual Plane is not modelled.
- GradleScripts.AppBuildGradle: each insertion's idempotence on its own output and the survival of the dependency are proved, not that the two steps together are idempotent.
- Threading is not modelled. Posting to the main thread (`Handler.post`, `frame.post`, `DispatchQueue.main.async`) runs at once, and the synchronized singleton construction is plain object creation.
- Unity player internals are not modelled: surface format, fullscreen flags, window focus, `requestFocus`, and what the player does with the requests it receives.
- `onAttachedToWindow` in ExpoUnityView.kt calls `startRendering`, which UnityBridge.kt does not define. It is left out; the resume step of `attachToContainer` is the rendering kick-start the model has.
- AndroidBridge.UnityBridge.Initialize: the `activity` argument and the `onReady` closure are not modelled. The outcome of the player constructor is a parameter, and whether `onReady` ran is the result.
- The iOS `UnityBridge` implementation is not part of this model; only its header is. What `initialize` leaves behind is a parameter, and `pause`, `sendMessage` and `unload` are recorded without any effect on `isInitialized` or the root view.
- IosView.ExpoUnityView.MountUnityView: hiding Unity's window and `makeKeyAndVisible` are not modelled, nor the simulator placeholder and its Auto Layout constraints.
- The thin JavaScript wrappers and the iOS Expo module, which only forward to the bridge, are not modelled.
- Logging is not modelled.
