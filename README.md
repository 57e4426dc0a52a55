# Portfolio site core, modelled in Dafny

This project models the interactive core of a single-page portfolio site and
its e-mail relay:

- `send_email.dfy` (`SendEmail`): the serverless contact relay. It checks the
  method, checks the three fields and the address, and then either only logs
  (no `RESEND_API_KEY`) or makes one provider request. The provider's reply
  becomes a fixed success or failure response.
- `app.dfy` (`AppView`): the root component's view controller. It has two
  state cells, `isLoading` and `currentView`, and three handlers. It decides
  when the loading screen, the navigation bar, the back button and each
  section are rendered.
- `navigation.dfy` (`Navigation`): the navigation bar. Its menu items and
  logo request views. Its logo text and profile image depend on the view. It
  has a scrolled flag and an image modal.
- `tiles.dfy` (`Tiles`): the apps grid. A tile registry and the click
  dispatch that turns a tile into one action: a new window, a `mailto:`
  location, a view request, or nothing.
- `contact.dfy` (`Contact`): the contact form. Its field, status and
  submitting cells, the submit handler split at its `await`, and the link
  from the form to the relay.
- `scene.dfy` (`Scene`): the scene graph the 3D components walk. Nodes have
  parent links to earlier nodes. Node 0 is the loaded model. Detaching a node
  (`parent.remove`) clears its parent link.
- `hand3d.dfy` (`Hand3D`): the hand scene.
  - The finger classifier on node names.
  - The load pass. It detaches the duplicate `Circle.003` outline and tags
    meshes with a finger. The `.glb` path inherits a finger from an ancestor;
    the `.gltf` fallback does not.
  - The click walk up to the nearest finger tag.
  - The finger menu and its tiles.
- `jeremiah.dfy` (`Jeremiah`): the landing scene.
  - The styling pass tags the mesh with the `blinn4` material as the screen.
    Other materials get a green glow.
  - The headshot pass.
  - The click test: a hit on the screen requests the apps view. There is no
    fallback area.
  - The scale tier and the centring of the model.
- `guy.dfy` (`Guy`): an alternative computer scene.
  - Screen detection by mesh name or a geometric guess.
  - The all-clickable fallback.
  - The click decision. A screen-space rectangle is tested before any
    raycast.
  - The hover tracker.
- `body.dfy` (`Body`): the skeleton section. Its head and hands menus are
  never open together. Its right ribs mirror the left ribs about the spine.
- `loading.dfy` (`Loading`): the loading terminal. Its lines grow as a prefix
  of fifteen fixed lines. Its progress counter moves in steps of 4 up to 100.
  It also has the zero-padded line numbers and the cursor on the last line.
- `text.dfy` and `wrappers.dfy`: `toLowerCase`, `includes` and `startsWith`
  on strings, and an `Option` type for `null`/`undefined`.

Each state cell that the source overwrites is a class field. Each handler
that overwrites cells is a method whose `ensures` ties the new state to a
pure step function, and the lemmas are stated about that function. Each
in-place scene traversal is a method on an `array<Node>` with the
postcondition `nodes[..] == F(old(nodes[..]))`, and the properties are proved
about `F`.

Raycasting is an input: the first node hit, or none. The world-position
heuristics are inputs too. These are the hand's position guess, Guy's "looks
like a screen" and "hit in the screen area" tests, and Guy's skybox pick.
Timers are explicit tick or completion events. `process.env`, `fetch` and
the provider reply are parameters of the relay.

Some facts about the code that shape the model:

- The contact form's own code checks nothing, but the browser does. All
  three fields are `required`, and the address input is `type="email"`.
  So a form with an empty field or an address that is not a valid HTML
  e-mail address is never submitted (`Contact.SubmitGate`). The browser's
  check is looser than the relay's in one respect: it accepts a domain
  without a dot, such as `a@b`. Such an address reaches the relay, which
  refuses it (`Contact.DotlessDomainRefusedByRelay`).
- The views are named `apps`, `jeremiah`, `projects`, `organizations` and
  `contact`. The initial view is `jeremiah`.

`src/App.js` renders neither `Hand3D`, `Guy` nor `Body`. They are modelled
as components on their own.

One timing consequence is proved (`Loading.StateAtCompletion`). The
completion callback fires at 2000 ms. By then the 50 ms progress interval
has reached 100, but the 150 ms line interval has printed only 13 of the 15
lines.

## Model

| member | source | states |
|---|---|---|
| SendEmail.EmailShapeIffRegex | api/send-email.js:16-19 | The direct shape (one `@`, a `.` after it, non-empty whitespace-free parts) accepts exactly the strings `^[^\s@]+@[^\s@]+\.[^\s@]+$` accepts, in both directions |
| SendEmail.NewlinesToBr | api/send-email.js:51 | The HTML message contains no line feed and is 3 characters longer per line feed replaced |
| SendEmail.NewlinesToBrKeepsPlainText | api/send-email.js:51 | A message without line feeds is put into the HTML unchanged |
| SendEmail.NewlinesToBrConcat | api/send-email.js:51 | The global replacement distributes over concatenation |
| SendEmail.NewlinesToBrRoundTrip | api/send-email.js:51 | For a message without `<`, replacing `<br>` by a line feed recovers the message |
| SendEmail.NewlinesToBrNotInjective | api/send-email.js:51 | A typed `<br>` and a line feed give the same HTML, so the HTML body cannot tell them apart |
| SendEmail.Subject | api/send-email.js:45 | The subject is the fixed prefix followed by exactly the sender's name |
| SendEmail.Handle | api/send-email.js:2-74 | The status is 200, 400, 405 or 500; the body is a success exactly when the status is 200; an e-mail is sent exactly when the input is valid and a credential is set; a sent e-mail's subject names the sender |
| SendEmail.NonPostRefused | api/send-email.js:4-6 | Any method but POST gets 405 and sends nothing, whatever else holds |
| SendEmail.MissingFieldRefused | api/send-email.js:8-13 | A POST with a missing or empty field gets 400 "Missing required fields" before the address is looked at |
| SendEmail.MalformedEmailRefused | api/send-email.js:15-19 | With all fields present, 400 "Invalid email address" is returned exactly when the address fails the regular expression |
| SendEmail.NoCredentialLogsOnly | api/send-email.js:24-33 | Valid input without a credential gets 200 with the development message and no provider request |
| SendEmail.ProviderOutcomeMapped | api/send-email.js:35-73 | With a credential, exactly the composed e-mail is sent; a successful JSON reply gives 200, anything else gives 500 with the fixed failure text |
| SendEmail.ProviderMessageNotLeaked | api/send-email.js:63-73 | The provider's own error text never changes the reply |
| SendEmail.AcceptedExample | api/send-email.js:16-17 | `ana@x.com` matches the address expression |
| SendEmail.RefusedExample | api/send-email.js:16-17 | `not-an-email` does not match it |
| Text.ToLower | src/components/Hand3D.js:311 | Lower-casing keeps the length, leaves no upper-case ASCII letter and changes only upper-case letters |
| Text.ToLowerIdempotent | src/components/Hand3D.js:159-160 | Lower-casing twice is lower-casing once |
| AppView.RenderedSections | src/App.js:58-118 | At most one section renders; one does exactly when loading is over and the view is known, and it is the section of the current view |
| AppView.NothingBehindLoadingScreen | src/App.js:34-37 | While loading, neither navigation, back button nor any section renders |
| AppView.ChromePerView | src/App.js:40-56 | Landing: no bar, no back button; apps: bar only; contact: both; projects and organizations: back button only |
| AppView.ViewChangeTotal | src/App.js:24-26 | A view change is accepted from any state and sets exactly the view |
| AppView.BackLandsOnApps | src/App.js:28-43 | The back button leads to the apps view, which shows the bar and the apps section and no back button |
| AppView.LoadingIrreversible | src/App.js:17-22 | Once loading is over, no sequence of events brings the loading screen back |
| AppView.ViewIsLastTarget | src/App.js:18-30 | After any events, the current view is the target of the latest view change or back press (or the initial view) |
| AppView.LastRequestIsTheOneSection | src/App.js:20-118 | After loading has completed, requesting a known view leaves exactly that view's section on screen, whatever came before |
| AppView.App.constructor | src/App.js:17-18 | Starts loading, on the landing view |
| AppView.App.HandleLoadingComplete | src/App.js:20-22 | Lowers the loading flag and keeps the view |
| AppView.App.HandleViewChange | src/App.js:24-26 | Sets the view and keeps the loading flag |
| AppView.App.HandleBack | src/App.js:28-30 | Sets the view to apps and keeps the loading flag |
| Navigation.ItemClick | src/components/Navigation.js:19-28 | A menu click requests the item's target exactly when a callback was passed |
| Navigation.LogoClick | src/components/Navigation.js:53 | A logo click requests the apps view exactly when a callback was passed |
| Navigation.MenuTargets | src/components/Navigation.js:19-22 | The two items request apps and contact |
| Navigation.LogoAndImageWhereRendered | src/components/Navigation.js:39-55 | Where the bar renders, the profile image shows exactly on contact, with the initials; the apps view shows the full name and no image |
| Navigation.RequestsKeepTheBar | src/components/Navigation.js:19-53 | Every view the bar can request keeps the bar on screen |
| Navigation.NavigationBar.constructor | src/components/Navigation.js:7-8 | Not scrolled, modal closed |
| Navigation.NavigationBar.HandleScroll | src/components/Navigation.js:11-13 | Scrolled exactly when the offset exceeds 50; the modal is untouched |
| Navigation.NavigationBar.ClickProfileImage | src/components/Navigation.js:39-47 | Opens the modal where the image is shown, else nothing changes |
| Navigation.NavigationBar.CloseImageModal | src/components/Navigation.js:79-90 | Closes the modal and keeps the scrolled flag |
| Tiles.Dispatch | src/components/Apps.js:53-63 | Every action names its cause: a new window only for an external `http` URL, a location only for an external `mailto` URL that is not `http`, a view request only for an internal non-empty view with a callback |
| Tiles.DispatchComplete | src/components/Apps.js:53-63 | Each cause does produce its action; an external tile never requests a view and an internal one never leaves the page |
| Tiles.DispatchNoAction | src/components/Apps.js:53-63 | Another scheme, a missing URL, or an internal tile without a callback does nothing |
| Tiles.RegistryWellFormed | src/components/Apps.js:7-51 | Five tiles with distinct ids; external ones have URLs; internal ones target projects or organizations; every tile does something with a callback |
| Tiles.RegistryActions | src/components/Apps.js:7-63 | GitHub and LinkedIn open windows, Email sets the location, Projects and Organizations request their views |
| Contact.WithField | src/components/Contact.js:15-20 | The named field takes the value and the other two are unchanged |
| Contact.StatusAfter | src/components/Contact.js:36-49 | Success text after an ok response; after a refused one, the relay's error when it is a non-empty string and the default text when it is absent or empty; the exception text after a network error or an unreadable body |
| Contact.FormAfter | src/components/Contact.js:38-45 | The fields are cleared after a successful response and kept otherwise |
| Contact.ContactForm.constructor | src/components/Contact.js:7-13 | Empty fields, empty status, not submitting |
| Contact.ContactForm.SubmitLabel | src/components/Contact.js:199-203 | The button reads "Sending..." exactly while it is disabled |
| Contact.ContactForm.HandleChange | src/components/Contact.js:15-20 | Only the named field changes |
| Contact.SubmitGate | src/components/Contact.js:155-199 | A press of the submit button reaches `handleSubmit` exactly when no request is pending and every field passes the browser's checks, and then carries the current fields |
| Contact.ContactForm.TrySubmit | src/components/Contact.js:155-199 | Follows `SubmitGate`: a blocked press changes nothing and sends nothing; an accepted one sets the flag and the sending status and sends the fields unchanged |
| Contact.ContactForm.BeginSubmit | src/components/Contact.js:22-34 | Sets the flag and the sending status and sends the current fields |
| Contact.ContactForm.CompleteSubmit | src/components/Contact.js:36-52 | Status and fields as `StatusAfter`/`FormAfter` say; the flag is lowered on every path |
| Contact.ContactForm.ClearStatus | src/components/Contact.js:41-49 | Clears the status only |
| Contact.EmptyFieldBlocked | src/components/Contact.js:163-199 | A form with an empty field, or a press while a request is pending, is never sent |
| Contact.NotAnEmailBlocked | src/components/Contact.js:174-183 | `not-an-email` fails the `type="email"` check, so the form holding it is never sent |
| Contact.RelayVerdictOnBrowserAddresses | src/components/Contact.js:174-183 | An address built from a valid local part and a valid domain is accepted by the browser, and the relay accepts it exactly when the domain contains a dot |
| Contact.BrowserPassedRelayRefused | src/components/Contact.js:22-45 | A form the browser accepts, with an address the relay refuses, is sent; the relay's "Invalid email address" is shown and the fields are kept |
| Contact.DotlessDomainRefusedByRelay | src/components/Contact.js:22-45 | `a@b` passes the browser and is refused by the relay with "Invalid email address", with the fields kept |
| Contact.ValidWithoutCredentialSucceeds | src/components/Contact.js:36-41 | Valid fields (`Ana`, `ana@x.com`, `hi`) against a relay without a credential: success text and a cleared form |
| Contact.ProviderFailureKeepsFields | src/components/Contact.js:42-44 | A provider failure shows the relay's fixed failure text and keeps every field |
| Hand3D.FingerIndexFromName | src/components/Hand3D.js:310-318 | The classifier answers a finger in 0..4 or nothing |
| Hand3D.FingerIndexPriority | src/components/Hand3D.js:310-318 | Finger k exactly when one of k's keywords occurs and no earlier finger's does; nothing exactly when no keyword occurs |
| Hand3D.FingerIndexIgnoresCase | src/components/Hand3D.js:159-160 | Lower-casing the name first changes nothing |
| Hand3D.FingerAppsShape | src/components/Hand3D.js:20-41 | Five rows of two tiles; every tile acts with a callback; internal ones target projects, organizations or contact |
| Hand3D.WithoutOutlines | src/components/Hand3D.js:107-132 | Detaching outlines keeps a valid scene of the same size |
| Hand3D.GlbStyled | src/components/Hand3D.js:134-179 | Styling keeps every parent link |
| Hand3D.GltfStyled | src/components/Hand3D.js:242-271 | Styling keeps every parent link |
| Hand3D.InheritedFingerIndex | src/components/Hand3D.js:159-170 | The loop returns the finger of the mesh's own name, else of the nearest ancestor naming one |
| Hand3D.RemoveDuplicateOutlines | src/components/Hand3D.js:107-132 | The collect-then-detach loops leave exactly `WithoutOutlines` of the old nodes |
| Hand3D.StyleGlb | src/components/Hand3D.js:134-179 | The traversal leaves exactly `GlbStyled` of the old nodes |
| Hand3D.StyleGltf | src/components/Hand3D.js:242-271 | The traversal leaves exactly `GltfStyled` of the old nodes |
| Hand3D.LoadGlb | src/components/Hand3D.js:102-179 | Outlines detached, then styled with inherited fingers |
| Hand3D.LoadGltf | src/components/Hand3D.js:212-271 | Outlines detached, then styled by own names only |
| Hand3D.InModelAfterRemoval | src/components/Hand3D.js:118-122 | Removal only cuts links: what is in the model afterwards was in it before |
| Hand3D.OnlyOutlinesDetached | src/components/Hand3D.js:111-122 | The removal changes only outline meshes of the model, and only their parent link |
| Hand3D.LoadedMeshesClickable | src/components/Hand3D.js:134-271 | On both paths every mesh left in the model is clickable and none below the root is an outline |
| Hand3D.GlbFallsBackToAncestors | src/components/Hand3D.js:159-269 | An unnamed mesh under a `Thumb` group gets finger 0 on the `.glb` path and no finger on the `.gltf` path |
| Hand3D.NearestFingerTagOnChain | src/components/Hand3D.js:577-587 | The walk answers nothing exactly when no node from the hit to the root is tagged, else the first tag on that chain |
| Hand3D.FindFingerIndex | src/components/Hand3D.js:577-587 | The loop returns the nearest tag |
| Hand3D.MenuOpensInRange | src/components/Hand3D.js:572-609 | A click changes the menu only with a model and a hit, and only to a finger in 0..4 |
| Hand3D.FingerMenu.constructor | src/components/Hand3D.js:16 | The menu starts closed |
| Hand3D.FingerMenu.Options | src/components/Hand3D.js:703 | An open menu always has a row of two tiles |
| Hand3D.FingerMenu.HandleClick | src/components/Hand3D.js:564-611 | The menu becomes `MenuAfterClick` (tag, else position guess, in range) and stays in range |
| Hand3D.FingerMenu.Close | src/components/Hand3D.js:689-698 | Closes the menu |
| Hand3D.FingerMenu.HandleAppClick | src/components/Hand3D.js:643-654 | Closes the menu and acts exactly as the apps grid's dispatch |
| Jeremiah.Styled | src/components/Jeremiah.js:176-202 | Styling keeps every parent link |
| Jeremiah.StyleMesh | src/components/Jeremiah.js:182-200 | The loop over materials gives `StyledMesh` |
| Jeremiah.StyleModel | src/components/Jeremiah.js:176-202 | The traversal leaves exactly `Styled` of the old nodes |
| Jeremiah.ScreenTaggedIffBlinn4 | src/components/Jeremiah.js:182-200 | After styling, a node is a screen exactly when it was one or is a mesh of the model with a `blinn4` material; newly tagged screens are clickable |
| Jeremiah.HeadshotApplied | src/components/Jeremiah.js:112-153 | The headshot pass keeps every parent link |
| Jeremiah.PutHeadshot | src/components/Jeremiah.js:113-151 | The loop gives `HeadshotMesh` and reports whether any material was replaced |
| Jeremiah.ApplyHeadshot | src/components/Jeremiah.js:111-167 | The traversal leaves exactly `HeadshotApplied`, and `foundBlinn4` is whether any material qualified |
| Jeremiah.ScreenShowsHeadshot | src/components/Jeremiah.js:112-200 | After both passes every `blinn4` material of the model shows the headshot, on a mesh tagged as a clickable screen |
| Jeremiah.NamedMeshLosesGlow | src/components/Jeremiah.js:116-196 | A non-screen material on a mesh named `blinn4` gets the glow and then loses it to the dimmed emissive |
| Jeremiah.AncestorIsScreenOnChain | src/components/Jeremiah.js:359-379 | The ancestor walk accepts exactly when some node on the chain is accepted |
| Jeremiah.HitsScreenOnChain | src/components/Jeremiah.js:337-380 | The click test accepts exactly when some node from the hit to the root is accepted, with the hit node's materials examined whatever it is |
| Jeremiah.FindBlinn4 | src/components/Jeremiah.js:351-357 | The loop finds a `blinn4` material exactly when one exists |
| Jeremiah.HandleClick | src/components/Jeremiah.js:326-381 | The apps view is requested exactly with a callback, a model, a hit, and the screen on its chain; nothing else is requested |
| Jeremiah.ScaleFor | src/components/Jeremiah.js:210-220 | The scale is positive and at most 0.2 |
| Jeremiah.ScaleNonIncreasing | src/components/Jeremiah.js:210-220 | A larger model never gets a larger scale |
| Jeremiah.ScaledSizeBounds | src/components/Jeremiah.js:209-222 | Models up to 200 units end at most 10 across; models over 50 end more than 4 across |
| Jeremiah.Placement | src/components/Jeremiah.js:225-227 | The scaled box centre lands on the origin on each axis |
| Guy.Tagged | src/components/Guy.js:310-371 | Tagging keeps every parent link |
| Guy.TagScreens | src/components/Guy.js:310-371 | The traversals leave exactly `Tagged`; `screenMeshes` lists exactly the detected meshes, in increasing index order |
| Guy.TaggingOutcome | src/components/Guy.js:310-371 | A node is a screen exactly when it was or was detected; with detections nothing else changes; without, every model mesh is clickable |
| Guy.ScreenNameIgnoresCase | src/components/Guy.js:314-320 | Name detection ignores case |
| Guy.NearestScreen | src/components/Guy.js:423-433 | A found node is tagged as a screen and is the hit itself or an earlier node |
| Guy.NearestScreenOnChain | src/components/Guy.js:423-433 | Nothing is found exactly when no node from the hit to the root is a screen, else the first one |
| Guy.FindScreen | src/components/Guy.js:423-433 | The loop returns the nearest screen |
| Guy.HandleClick | src/components/Guy.js:390-449 | The apps view is requested exactly when a callback exists and the rectangle, a screen on the hit's chain, or the screen-area guess says so; the ray is cast only outside the rectangle with a model |
| Guy.HoverStepSound | src/components/Guy.js:476-507 | Every move keeps "pointer cursor exactly when the hovered screen is emphasised" and records the found screen; nothing changes without a transition; after one the pointer shows exactly when a screen with a material was entered |
| Guy.HoverStepIdempotent | src/components/Guy.js:476-507 | A second move over the same screen is not a transition |
| Guy.HoverTracker.constructor | src/components/Guy.js:387 | Nothing hovered, grab cursor |
| Guy.HoverTracker.MouseMove | src/components/Guy.js:451-508 | Without a model nothing changes; otherwise the state follows `HoverStep` and the side effects run exactly when the found screen differs from the hovered one |
| Body.StepSound | src/components/Body.js:10-23 | Every handler keeps the menus exclusive and is idempotent |
| Body.NeverBothOpen | src/components/Body.js:7-23 | No sequence of clicks opens both menus |
| Body.BodyMenus.constructor | src/components/Body.js:7-8 | Both menus closed |
| Body.BodyMenus.HandleHeadClick | src/components/Body.js:10-13 | Head open, hands closed |
| Body.BodyMenus.HandleHandsClick | src/components/Body.js:15-18 | Hands open, head closed |
| Body.BodyMenus.CloseMenus | src/components/Body.js:20-23 | Both closed |
| Body.BodyMenus.ViewAllProjects | src/components/Body.js:529-535 | Closes the menus only when the projects element exists |
| Body.RibsMirror | src/components/Body.js:131-158 | Every right-rib point is the left-rib point reflected about x = 200 |
| Body.RibsInViewBox | src/components/Body.js:131-158 | The twelve ribs leave the spine sideways and stay inside the 400 by 800 view box |
| Loading.TicksKeepValid | src/components/Loading.js:28-46 | Both ticks keep the lines equal to the first `lineIndex` code lines and the progress a multiple of 4 in 0..100; lines are only appended; progress never falls and stays at 100 once reached |
| Loading.StartValid | src/components/Loading.js:6-7 | The initial state is valid |
| Loading.LinesAfterTicks | src/components/Loading.js:28-36 | After n line ticks from a valid state, min(lineIndex + n, 15) lines are printed |
| Loading.ProgressAfterTicks | src/components/Loading.js:38-46 | After n progress ticks from a valid state, the progress is min(progress + 4n, 100) |
| Loading.StateAtCompletion | src/components/Loading.js:28-50 | At the 2000 ms completion the progress is 100 but only 13 of the 15 lines are printed |
| Loading.LoadingScreen.constructor | src/components/Loading.js:6-7 | No lines, progress 0, both intervals running |
| Loading.LoadingScreen.OnLineTick | src/components/Loading.js:29-36 | Follows `LineTick` and keeps the state valid |
| Loading.LoadingScreen.OnProgressTick | src/components/Loading.js:38-46 | Follows `ProgressTick` and keeps the state valid |
| Loading.NatToDecimal | src/components/Loading.js:86 | `String(n)` is a non-empty digit string, at most three digits below 1000 |
| Loading.PadStart | src/components/Loading.js:86 | Padding reaches the width, ends with the input and fills with the pad character |
| Loading.ParseNatToDecimal | src/components/Loading.js:86 | The decimal string reads back as the number |
| Loading.ParseIgnoresLeadingZeros | src/components/Loading.js:86 | Leading zeros do not change the value |
| Loading.LineLabelRoundTrip | src/components/Loading.js:86 | The label reads back as the 1-based line number and is three digits for the first 999 lines |
| Loading.LineLabelExamples | src/components/Loading.js:86 | The labels of the first and the fifteenth line are `001` and `015` |
| Loading.Render | src/components/Loading.js:78-98 | One row per printed line, in order, each with its line's text and its padded number |
| Loading.CursorOnLastLineOnly | src/components/Loading.js:78-98 | No row has the cursor when nothing is printed; otherwise the last row has it and no other row does |
| Loading.CursorFollowsPrinting | src/components/Loading.js:28-98 | On the loading screen the cursor row shows the code line printed last, and its number reads back as the count of printed lines; a line tick that prints moves the cursor to the new line |

## Left out

- Rendering, animation, styling classes, icons and three.js scene construction (lights, cameras, controls, wireframes, sprites, canvas text, animation mixers) are foreign library calls with floating-point geometry. They are not modelled.
- Raycasting, the hand's world-position finger guess, Guy's geometric screen guess, Guy's world-position "screen area" test and Guy's skybox pick are inputs of the model. They are not computed.
- Timers and intervals are tick or completion events. Wall-clock time, the five-second status clear and the orientation-change delay are not modelled.
- The network and the environment are parameters of the relay: the `fetch` to the provider, its JSON reply, and `process.env`. Console logging is not modelled.
- Text.ToLower: lower-cases ASCII letters only. JavaScript's `toLowerCase` also maps other letters, and some of them to ASCII ones: U+212A KELVIN SIGN becomes `k`, so `"PIN\u212AY"` contains `pinky` in JavaScript but not in the model. Some characters lower-case to two code units (`İ`), so JavaScript does not always keep the length as the model does. Names with such characters can be classified differently.
- SendEmail.Handle: request fields that are not strings (numbers, objects) and an absent request body are not modelled. A field is present or absent.
- The HTML and text templates are modelled as strings. No HTML escaping happens in the source, and none is modelled.
- Body: the teeth, vertebrae and joints and the formatting of the rib path strings are not modelled. Only the rib control points are.
- Hand3D: the procedural hand built when neither model file loads, and the disposal of removed geometry and materials, are not modelled.
- Guy.HoverTracker.MouseMove: the emissive intensities are not modelled. Only which screen is emphasised is. A material counts as present when the node has at least one.
- Jeremiah.ApplyHeadshot: each node holds its own copy of its materials. In the program, meshes of a loaded model can share one material object, and the pass changes that object in place. When a mesh qualifies only by its name, a material it shares with other meshes then shows the headshot and loses its glow on every mesh that uses it. The model changes only the qualifying mesh's copy. The same holds for `Jeremiah.StyleModel`, but there the result depends only on the material, so sharing changes nothing for meshes inside the model.
- Contact: the browser's value sanitisation is not modelled. It removes line breaks from the name and the address, and leading and trailing whitespace from the address. The form's fields are taken as the sanitised values.
- Jeremiah: the `isLoading` overlay and the texture colour values are not modelled. The headshot pass runs after the styling pass, as it does when the texture arrives.
- Teardown is not modelled: the removal of listeners, the disposal of renderers, and the animation loops that are never cancelled.
- `Computer.js`, `SpaceBackground.js` and the static sections (`Hero`, `About`, `Experience`, `Projects`, `Skills`) are not part of this model.
- Loading: React runs the `setLines` updater later, and it reads the shared `lineIndex` when it runs. The model appends synchronously on each tick. If the updater runs after `lineIndex++`, each row shows the next code line instead: `> INITIALIZING SYSTEM...` is never shown, and the fifteenth tick appends `undefined`. `Valid` (`lines == CodeLines[..lineIndex]`), the row contents in `StateAtCompletion` and the content clause of `CursorFollowsPrinting` describe the synchronous reading.
