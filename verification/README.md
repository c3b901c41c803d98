# isper-landing in Dafny

A Dafny model of the front end of the ISPER landing site. The site is a single-page
JavaScript application. It has:

- a History-API router that picks the page module from `location.pathname`;
- a navigation bar and a floating dock menu;
- a news page with category filters, and a contact form with field validation;
- a typewriter headline;
- an `App` shell that switches between three WebGL scenes as the page scrolls:
  - the hero tiles that spell "ISPER";
  - the feature tunnel;
  - the drag-and-drop demo.
- a 2000-particle controller with its own state machine (idle, text, burst, star field/globe) and gsap
  timelines;
- a staggered-grid fluid-velocity solver.

Every component becomes a module of pure functions over immutable datatypes. DOM state, scene state
and typed arrays are records and sequences, and event handlers map the old state to the new one.
Timelines become lists of tween records: particle index, placement, delay and target. Arrays of
`Float32` become `seq<real>`, with the source's flat index arithmetic kept as it is.

Three things the code calls out to become parameters:

- `Math.random` is a draw sequence `rand: nat -> real`, and operations report how many draws they used.
- `Math.sqrt` and `Math.exp` are oracle functions.
- Network results (page-module loading, the form `fetch`) are inputs.

Each module is one source file:

| module | source file |
|---|---|
| `Router` | `src/router.js` |
| `Navigation` | `src/components/Navigation.js` |
| `DockBar` | `src/components/DockBar.js` |
| `News` | `src/pages/News/index.js` |
| `Contact` | `src/pages/Contact/index.js` |
| `Typewriter` | `src/pages/Isper/index.js` |
| `Performance` | `src/utils/performance.js` |
| `App` | `src/App.js` |
| `Hero` | `src/scenes/HeroScene.js` |
| `Tunnel` | `src/scenes/FeatureTunnel.js` |
| `Demo` | `src/scenes/DemoSection.js` |
| `ParticleFlags`, `ParticleMotion`, `ParticleGeo`, `Burst`, `TextTransition` | `src/scenes/ParticleSystem.js` |
| `Fluid`, `FluidStep` | `src/utils/FluidSimulation.js` |
| `Timeline`, `ParticleCommon`, `GridIndex`, `RealArith`, `Wrappers` | shared helpers |

### Notes on the code

The particle controller has no single state variable. It keeps separate boolean flags, and nothing
blocks a second burst while one is in flight: every click on the formed text and every re-arming
scroll starts another burst timeline. See `ParticleFlags.ClicksBurstAgain` and
`ParticleFlags.ScrollRearmsBurst`.

`useFluidSimulation` is the constant `false`, so `updateParticles` never steps the fluid solver.
The solver is modelled on its own.

## Model

| member | source | states |
|---|---|---|
| Router.Lookup | src/router.js:3-10 | A listed path maps to its page module; any unlisted path falls back to the Isper page. |
| Router.RootAliases | src/router.js:3-34 | `/` and `/isper` both name the Isper page, and every unknown path renders what `/` renders. |
| Router.HandleRoute | src/router.js:32-51 | A failed load changes nothing. A successful load makes the looked-up module current and appends destroy (when the old page has one), construct and render to the call log. |
| Router.DestroyBeforeConstruct | src/router.js:41-47 | The old page's `destroy` comes right before the new page's construct and render. |
| Router.HandlingKeepsOrder | src/router.js:32-51 | Over any sequence of route handlings, every construct is followed by rendering the same page, and every destroy by a construct. |
| Router.PathOf | src/router.js:33 | The pathname of a pushed href is its longest prefix free of `?` and `#`: the href is cut at the first query or fragment mark, or kept whole when it has none. |
| Router.Navigate | src/router.js:53-56 | `pushState` appends the href to the history; a failed load keeps the current page, and a successful one makes the page that the href's pathname looks up current. |
| Router.PathOfSplit | src/router.js:33 | A path free of `?` and `#`, followed by a query or fragment, has that path as its pathname. |
| Router.QueryIgnored | src/router.js:33-34 | Adding a query or fragment to a link opens the same page as the bare path; only the history entry differs. |
| Router.OnClick | src/router.js:24-29 | A click is intercepted exactly when it lands on an anchor whose href starts with `/`. An intercepted click pushes that href, and after a successful load the page for the href's pathname is current. |
| Navigation.ActiveLinks | src/components/Navigation.js:55-66 | Link `i` is active exactly when its href equals the current path. |
| Navigation.ActiveCount | src/components/Navigation.js:55-66 | At most one link is active: exactly one when the path is among the hrefs, otherwise none. |
| Navigation.SiteHighlighting | src/components/Navigation.js:17-21 | With the bar's own hrefs, a listed path lights one link and `/` lights none. |
| Navigation.OnMenu | src/components/Navigation.js:41-52 | The toggle flips both the link list and the toggle button; a link click closes both. |
| Navigation.MenuInStep | src/components/Navigation.js:41-44 | The list and the button stay open or closed together over any click sequence. |
| DockBar.OnClick | src/components/DockBar.js:63-74 | The toggle flips `isExpanded` and the `expanded` class together; an outside click collapses an open dock; an inside click changes nothing. |
| DockBar.ToggleTwice | src/components/DockBar.js:63-74 | Two toggles restore the dock; an outside click never leaves it open. |
| DockBar.Split | src/components/DockBar.js:90 | `split('#')` yields at least one '#'-free piece, and joining the pieces with '#' gives back the string. |
| DockBar.ItemPath | src/components/DockBar.js:90 | The piece after the first '#' has no '#', and it is missing exactly when the href has no '#'. |
| DockBar.CurrentPath | src/components/DockBar.js:85 | The compared path is the hash when there is one, otherwise `#/`; it always starts with '#'. |
| DockBar.ActiveItems | src/components/DockBar.js:84-93 | Item `i` is active exactly when its href fragment equals the current path. |
| DockBar.NoItemEverActive | src/components/DockBar.js:84-93 | As written, no dock item is ever active, for any hash and any hrefs. |
| DockBar.IntendedHighlightsCurrent | src/components/DockBar.js:16-93 | With the fragment compared including its '#', a dock item is active exactly when the hash names its route, and with no hash Home is active. |
| DockBar.AddStyles | src/components/DockBar.js:95-96 | A style element is added only when none exists yet. |
| DockBar.StylesOnce | src/components/DockBar.js:95-96 | Rendering any number of dock bars into a page leaves exactly one style element. |
| News.Lower | src/pages/News/index.js:91 | Lower-casing keeps the length and folds each letter. |
| News.RenderItems | src/pages/News/index.js:89-101 | One article per item, in order, with delay `0.1 * i` and the lower-cased category as `data-category`. |
| News.Initial | src/pages/News/index.js:54-57 | After rendering, only "All" is active and every article is shown. |
| News.OnFilter | src/pages/News/index.js:112-134 | The clicked button alone becomes active; an article is shown exactly when the filter is "all" or equals its category. |
| News.CategoriesAreFilters | src/pages/News/index.js:6-57 | The items' lower-cased categories are the three non-"all" filter values, in order. |
| News.EachFilterShowsItsCategory | src/pages/News/index.js:112-134 | On the page's own items, "All" shows all three articles and each other button shows exactly its own article. |
| News.DistinctFilters | src/pages/News/index.js:54-57 | The four filter values are pairwise distinct, and only the first is "all". |
| Contact.TrimStartEmpty | src/pages/Contact/index.js:245 | Trimming the start leaves nothing exactly when every character is JavaScript white space. |
| Contact.TrimEmpty | src/pages/Contact/index.js:245 | `trim()` is empty exactly when the value is all white space. |
| Contact.FirstAt | src/pages/Contact/index.js:252 | The position returned is the first '@', or the length when there is none. |
| Contact.LastDot | src/pages/Contact/index.js:252 | The position returned is the last '.', or the length when there is none. |
| Contact.EmailScanner | src/pages/Contact/index.js:251-257 | The position-based email check agrees with the regular-expression predicate on every string. |
| Contact.OneAt | src/pages/Contact/index.js:252 | An address the pattern accepts has exactly one '@'. |
| Contact.SpacesFail | src/pages/Contact/index.js:252 | An accepted address starts with a local-part character and ends with a letter, so never with a space. |
| Contact.ValidateField | src/pages/Contact/index.js:237-266 | Required-and-blank gives "required"; otherwise an email field failing the pattern gives "bad email"; otherwise an empty select gives "no option"; otherwise the field is valid. Each case is stated as an if-and-only-if. |
| Contact.RequiredSelectNeverNoOption | src/pages/Contact/index.js:245-263 | A required select reports "required", never "select an option", when empty. |
| Contact.BlankIsRequired | src/pages/Contact/index.js:245-248 | A required field of white space is always rejected as required, whatever its type. |
| Contact.CheckAll | src/pages/Contact/index.js:172-181 | Every required field is validated and no other field is. |
| Contact.Submit | src/pages/Contact/index.js:168-234 | An invalid form sends nothing. A missing captcha shows its error and sends nothing. A valid form with a captcha is sent with that token. After a missing captcha, and on every outcome of a send, the button ends enabled and labelled "Send Message". The form resets exactly when delivery succeeds; a failed send shows the error notice. |
| Typewriter.Prefix | src/pages/Isper/index.js:79 | `substring(0, n)` is the string's prefix whose length is `n` clamped to `[0, len]`. |
| Typewriter.Tick | src/pages/Isper/index.js:74-119 | A stopped typer stays stopped; a typing tick advances the index by one. |
| Typewriter.TypingProgress | src/pages/Isper/index.js:74-119 | After `n` ticks from the start, the two lines show the first `n` characters, split at the first line's length, with the cursor on the line being typed. |
| Typewriter.TicksSplit | src/pages/Isper/index.js:74-119 | Running `m` and then `e` ticks is running `m + e` ticks. |
| Typewriter.StaysStopped | src/pages/Isper/index.js:81-87 | Once typing has returned, further ticks change nothing. |
| Typewriter.PageTyping | src/pages/Isper/index.js:67-87 | With the page's lines, 16 ticks show "Copy,  Paste... " on the first line and nothing on the second; from tick 21 on both lines are complete and typing has stopped. |
| Typewriter.TypingEnds | src/pages/Isper/index.js:81-87 | One tick past the full text, typing stops for good with both lines complete and the cursor on the second line. |
| Performance.Lerp | src/utils/performance.js:16-18 | `t = 0` gives `a` and `t = 1` gives `b`. |
| Performance.LerpBetween | src/utils/performance.js:16-18 | For `t` in [0, 1] the result lies between the two ends. |
| Performance.Clamp | src/utils/performance.js:20-22 | The result lies in `[min, max]` when that range is non-empty, and values inside are unchanged. An inverted range gives `min`. |
| Performance.ClampIdempotent | src/utils/performance.js:20-22 | Clamping twice is clamping once. |
| Performance.MatchAt | src/utils/performance.js:4 | The loop decides a case-folded match at position `i`. |
| Performance.Search | src/utils/performance.js:4 | The scan finds a pattern exactly when it occurs somewhere, ignoring case. |
| Performance.MobileAgent | src/utils/performance.js:4 | The user agent is mobile exactly when one of the eight names occurs in it, ignoring case. |
| Performance.IsMobile | src/utils/performance.js:3-6 | The agent test or a window narrower than 768 pixels. |
| App.SetupScenes | src/App.js:72-79 | The hero scene is initialised and becomes current. |
| App.TransitionTo | src/App.js:127-142 | The current scene is disposed before the new one is initialised and made current. |
| App.OnTrigger | src/App.js:91-125 | Progress updates are forwarded to the current scene. Leaving the hero or re-entering the features selects the tunnel; re-entering the hero selects the hero; leaving the features selects the demo. |
| App.OnMouseMove | src/App.js:144-151 | The pointer is mapped to device coordinates and forwarded only to a current scene that handles it. |
| App.NdcCorners | src/App.js:144-151 | The window's top-left maps to (-1, 1), its bottom-right to (1, -1), and the window interior into the unit square; scaling back recovers the client position. |
| App.OnTouchMove | src/App.js:153-163 | A touch with no points changes nothing; otherwise the first point acts as a mouse move. |
| App.OneLiveScene | src/App.js:127-142 | In an alternating log, initialisations outnumber disposals by exactly one. |
| App.EventKeepsRunning | src/App.js:91-163 | Every scroll, mouse and touch event keeps exactly one live scene. |
| App.RunKeepsOneScene | src/App.js:127-142 | After any event sequence exactly one scene is live. |
| App.SetupRuns | src/App.js:72-79 | Setting up a constructed shell starts it running. |
| Hero.LetterPositions | src/scenes/HeroScene.js:47-60 | Five positions, one per letter of "ISPER", on the line `y = z = 0`. |
| Hero.LetterLayout | src/scenes/HeroScene.js:47-60 | The letters are 0.9 apart, mirror-symmetric about the middle, and the middle letter is at the origin. |
| Hero.LetterIndexExact | src/scenes/HeroScene.js:180 | The real-valued `floor(index / tiles * 5)` equals the integer `5 * index / tiles` and is a valid letter. |
| Hero.DesktopRuns | src/scenes/HeroScene.js:64-180 | With 25 tiles, tile `index` goes to letter `index / 5`, so each letter gets five consecutive tiles. |
| Hero.TransitionTweens | src/scenes/HeroScene.js:176-205 | Two tweens per tile: the move to its letter, then the un-rotation, each with delay `index * 0.02`. |
| Hero.TransitionTargets | src/scenes/HeroScene.js:176-205 | Every tile targets a valid letter, and a later tile never starts earlier. |
| Hero.OnScroll | src/scenes/HeroScene.js:168-174 | Progress is stored; the transition starts once, the first time progress exceeds 0.5. |
| Hero.TransitionOnce | src/scenes/HeroScene.js:168-177 | Over any scroll sequence the transition starts at most once, and it has started exactly when some progress passed 0.5. |
| Hero.Repulsion | src/scenes/HeroScene.js:239-246 | The repulsion factor lies in (0, 1] and is 1 exactly at the mouse centre. |
| Hero.StepTile | src/scenes/HeroScene.js:229-257 | The original position is kept and the rotations advance by `0.2 dt` and `0.1 dt`. |
| Hero.StepTileFacts | src/scenes/HeroScene.js:239-252 | At distance 2 or more from the mouse centre the velocity only decays by 0.95. In every case the new offset from rest is 98% of the offset after moving. |
| Hero.UpdateTiles | src/scenes/HeroScene.js:229-257 | During the transition the tiles are left to the tweens; otherwise each tile steps. |
| Hero.EaseMouse | src/scenes/HeroScene.js:230 | `lerp(target, 0.1)` shrinks the remaining distance to the target by the factor 0.9. |
| Tunnel.SlotInside | src/scenes/FeatureTunnel.js:83 | Panel slot `(i + 1) / (n + 1)` lies strictly inside (0, 1). |
| Tunnel.SlotIncreasing | src/scenes/FeatureTunnel.js:83 | Slots increase with the index. |
| Tunnel.MakePanel | src/scenes/FeatureTunnel.js:63-102 | A panel records its feature, its slot along the curve, and a sideways shift of +5 for even and -5 for odd features. |
| Tunnel.FeaturePanels | src/scenes/FeatureTunnel.js:63-102 | One panel per feature, in feature order. |
| Tunnel.PanelsAlongCurve | src/scenes/FeatureTunnel.js:83-88 | Panels lie in increasing order along the curve and alternate sides. |
| Tunnel.InitAsWritten | src/scenes/FeatureTunnel.js:21-27 | `init` appends four panels to those already in the scene. |
| Tunnel.Init | src/scenes/FeatureTunnel.js:21-27 | `init` leaves exactly the four feature panels. |
| Tunnel.HighlightAt | src/scenes/FeatureTunnel.js:213-230 | Opacity and emissive intensity move in fixed proportion to the scale. For distances in [0, 1) all three lie above 1 / 0.5 / 0.2 and at most 1.2 / 1.0 / 0.5. The scale peaks at 1.2 exactly at distance 0. |
| Tunnel.HighlightFalls | src/scenes/FeatureTunnel.js:215-228 | A smaller distance gives strictly larger scale, opacity and emissive intensity. |
| Tunnel.OnScroll | src/scenes/FeatureTunnel.js:213-230 | Each panel is highlighted by its distance from the scroll progress, at its slot among `panels.length`. |
| Tunnel.HighlightBounds | src/scenes/FeatureTunnel.js:213-230 | For progress in [0, 1], each highlight is strictly above 1 / 0.5 / 0.2 and at most its peak 1.2 / 1.0 / 0.5. |
| Tunnel.HighlightMatchesPlacement | src/scenes/FeatureTunnel.js:213-230 | With the corrected `init`, any number of entries leaves four panels. Each panel is fully highlighted exactly when the progress equals the curve parameter it was placed at. |
| Tunnel.EnterAfresh | src/scenes/FeatureTunnel.js:21-27 | With the corrected `init`, any number of entries leaves the four feature panels. |
| Tunnel.ReentryMisplacesHighlight | src/scenes/FeatureTunnel.js:213-230 | As written, a second `init` leaves eight panels. The first is placed at 0.2, and scrolling to 0.2 no longer fully highlights it. |
| Demo.OnDragOver | src/scenes/DemoSection.js:112-115 | Dragging over sets the drag-over class and nothing else. |
| Demo.OnDragLeave | src/scenes/DemoSection.js:117-119 | Leaving clears the drag-over class and nothing else. |
| Demo.OnDrop | src/scenes/DemoSection.js:121-129 | A drop clears drag-over; processing starts exactly for a video file; other drops change nothing more. |
| Demo.OnlyVideosProcess | src/scenes/DemoSection.js:126 | Processing starts exactly when the first file's type begins with `video/`. |
| Demo.DetectCount | src/scenes/DemoSection.js:138 | Between two and four locations are detected. |
| Demo.EveryCountOccurs | src/scenes/DemoSection.js:138 | Each of the counts 2, 3 and 4 occurs for some draw. |
| Demo.OnProcessed | src/scenes/DemoSection.js:132-166 | The detected locations are a prefix of the known ones. The list shows them with delays `0.2 i`. A pin is appended for each and the old pins are kept. The OCR panel is shown. |
| Demo.OnRearmed | src/scenes/DemoSection.js:162-164 | Only the status changes, to "drop another". |
| Demo.PinsAccumulate | src/scenes/DemoSection.js:142-202 | Processing twice resets the list but keeps every earlier pin; the pins of both runs follow the old ones, in order. |
| ParticleFlags.TransformToText | src/scenes/ParticleSystem.js:1374-1376 | Text forms at most once; the only flag changed is `isTextFormed`. |
| ParticleFlags.BurstParticles | src/scenes/ParticleSystem.js:418-669 | A burst marks index 10 as the special star and schedules one globe reveal; no other flag changes. |
| ParticleFlags.OnClick | src/scenes/ParticleSystem.js:336-378 | Near the special star, space mode navigates. Otherwise globe or space mode ignores the click. An idle system forms text, and formed text bursts. |
| ParticleFlags.OnTouch | src/scenes/ParticleSystem.js:380-392 | A touch forms text exactly when the globe and space modes are off and text is not yet formed. |
| ParticleFlags.OnScroll | src/scenes/ParticleSystem.js:394-406 | Past 0.1 with text formed and not yet bursted, a burst starts. At or below 0.1 the burst re-arms. |
| ParticleFlags.OnBurstCompleted | src/scenes/ParticleSystem.js:659-668 | The 4.5-second callback ends text mode, enters space mode with globe interaction, and creates the globe once. |
| ParticleFlags.Step | src/scenes/ParticleSystem.js:336-668 | Every event keeps the flag invariant. A burst needs formed text outside space mode; text forms only from the idle state. |
| ParticleFlags.RunKeepsInv | src/scenes/ParticleSystem.js:336-668 | The invariant holds after any event sequence. |
| ParticleFlags.Reachable | src/scenes/ParticleSystem.js:15-35 | From construction, every reachable state keeps the invariant and the map is never formed. |
| ParticleFlags.SpaceIsTerminal | src/scenes/ParticleSystem.js:366-369 | Once in space mode the system stays there and never forms text or bursts again. |
| ParticleFlags.ScrollRearmsBurst | src/scenes/ParticleSystem.js:394-406 | Scrolling down, up and down again starts two bursts. |
| ParticleFlags.ClicksBurstAgain | src/scenes/ParticleSystem.js:371-376 | Two clicks on formed text start two bursts: no guard covers a burst in flight. |
| ParticleMotion.Damping | src/scenes/ParticleSystem.js:1644 | The damping factor is in (0, 1), and below 0.96 for fast particles. |
| ParticleMotion.Integrate | src/scenes/ParticleSystem.js:1637-1669 | A particle moves by its old velocity and uses zero or three random draws. |
| ParticleMotion.UpdateAll | src/scenes/ParticleSystem.js:1635-1670 | Every particle moves by its own velocity, using at most three draws each. |
| ParticleMotion.UpdateParticles | src/scenes/ParticleSystem.js:1620-1675 | Text, pin or space mode freezes the particles; otherwise all of them move. |
| ParticleMotion.JitterBounded | src/scenes/ParticleSystem.js:1651-1655 | The random kick changes each velocity component by at most 0.0005. |
| ParticleMotion.RadialPullInward | src/scenes/ParticleSystem.js:1657-1664 | Beyond radius 60 the pull is a positive multiple of the position, taken off the velocity in x and y. |
| ParticleMotion.DepthPullTowardPlane | src/scenes/ParticleSystem.js:1667-1669 | Beyond depth 30 the z velocity is pushed toward the plane; nearer, nothing changes. |
| ParticleMotion.Push | src/scenes/ParticleSystem.js:1566-1594 | Only particles strictly between the dead zone and the reach are pushed; positions never change. |
| ParticleMotion.MouseForce | src/scenes/ParticleSystem.js:1566-1594 | All particles keep their positions, and those out of range keep their velocities. |
| ParticleMotion.PushAway | src/scenes/ParticleSystem.js:1566-1594 | The velocity change points away from the mouse in every component. |
| ParticleMotion.Drag | src/scenes/ParticleSystem.js:292-305 | Without globe interaction and a pressed button the globe is untouched; dragging changes velocity, not rotation. |
| ParticleMotion.AnimateGlobe | src/scenes/ParticleSystem.js:1695-1715 | The tilt stays within 60 degrees. Both spin rates stay within 0.02. The y spin never drops below 0.0005. |
| ParticleMotion.HoverCursor | src/scenes/ParticleSystem.js:271-289 | The cursor is set only in space mode with a special star, and it is a pointer exactly within 0.15 of the star. |
| ParticleMotion.MouseMove | src/scenes/ParticleSystem.js:263-322 | Text or space mode leaves the particles alone. Without a drag the globe is unchanged, and the particle count is kept. |
| ParticleGeo.LandInBoxes | src/scenes/ParticleSystem.js:764-803 | Land lies inside one of the six continent boxes. |
| ParticleGeo.MediterraneanGap | src/scenes/ParticleSystem.js:778-781 | The Mediterranean gap is ocean, including the part of Europe's box that Africa's test decides first. |
| ParticleGeo.MiddleEastGapShadowed | src/scenes/ParticleSystem.js:764-803 | Europe's Middle-East exclusion never applies where Africa's box already returned land. |
| ParticleGeo.LandBoxes | src/scenes/ParticleSystem.js:764-803 | All of Australia's box, and Asia's band outside the other boxes, is land. |
| ParticleGeo.RegionColour | src/scenes/ParticleSystem.js:1549-1564 | Each of the four colours is chosen exactly in its own region of x and y. |
| ParticleGeo.FloorIndex | src/scenes/ParticleSystem.js:233-236 | `floor(r * n)` for a draw in [0, 1) is a valid index. |
| ParticleGeo.Swap | src/scenes/ParticleSystem.js:235 | The swap exchanges two entries, keeps the rest, and is a permutation. |
| ParticleGeo.Shuffle | src/scenes/ParticleSystem.js:233-236 | Fisher-Yates yields a permutation of the points, using one draw per swap. |
| Burst.BranchPartition | src/scenes/ParticleSystem.js:512-531 | Index 10 is the special star, indices 11 to 15 the cluster, and every other index a normal star. |
| Burst.Brighten | src/scenes/ParticleSystem.js:504-506 | The flash doubles a channel capped at 1 and never darkens it. |
| Burst.ScatterGroup | src/scenes/ParticleSystem.js:469-509 | Phase 1 gives each particle four tweens at fixed timeline positions, all addressed to that particle. |
| Burst.StarGroup | src/scenes/ParticleSystem.js:518-642 | Phase 2 gives each particle a move at the timeline end, delayed `2.5 + 0.0002 i`, and size and colour tweens delayed 2.5. |
| Burst.StarPulse | src/scenes/ParticleSystem.js:566-575 | The size tween's `onComplete` starts an endless yoyo on the same particle, from the size that tween reached up to 2.0, three seconds each way. |
| Burst.BurstPulse | src/scenes/ParticleSystem.js:560-576 | Outside the timeline, a burst starts exactly one endless size pulse, on the special star (index 10) and no other particle, swinging between 1.5 and 2.0. It is the pulse that the callback of that particle's phase-2 size tween starts. |
| Burst.ScatterTargets | src/scenes/ParticleSystem.js:489-507 | The size spikes to 4 times, then to 1.5 times half a second later. The colour is capped at 1 and never darkens a channel in [0, 1]. |
| Burst.StarTargets | src/scenes/ParticleSystem.js:518-642 | With draws in [0, 1), each branch gets colour, size and radius in its own ranges: 40-90 for the shell and 52.5-57.5 for the cluster. The special star gets (0.9, 0.9, 1.0) and size 1.5. |
| Burst.DrawsBeforeClosed | src/scenes/ParticleSystem.js:518-642 | The random draws of stars `0 .. i - 1` add up to the closed form used for offsets. |
| Burst.BurstDraws | src/scenes/ParticleSystem.js:418-669 | A burst of 2000 particles consumes exactly 18004 random draws. |
| Burst.BurstCovers | src/scenes/ParticleSystem.js:469-642 | In the burst timeline every particle gets exactly two moves, three size tweens and two colour tweens, and no tween targets a missing particle. The size pulse outside the timeline is stated by `Burst.BurstPulse`. |
| TextTransition.TextCount | src/scenes/ParticleSystem.js:1382 | The particles used are `min(points, 2000)`. |
| TextTransition.TextGroup | src/scenes/ParticleSystem.js:1394-1446 | Only particles below the text count move onto text points, each at position `i * 0.001`. Every tween addresses its own particle. |
| TextTransition.TextSchedule | src/scenes/ParticleSystem.js:1384-1447 | The unused particles take two draws each; the used ones take none. |
| TextTransition.TextScheduleCovers | src/scenes/ParticleSystem.js:1384-1447 | Every particle gets one move and one size tween. Only the unused ones get a colour tween. All tweens address real particles. |
| TextTransition.TextStartsOrdered | src/scenes/ParticleSystem.js:1394-1412 | Along the schedule, the moves onto text start in non-decreasing time and target only used particles. |
| GridIndex.Decode | src/utils/FluidSimulation.js:61-64 | Row and column recover the pair from the flat index `j * w + i`. |
| GridIndex.Encode | src/utils/FluidSimulation.js:61-64 | Every flat index below `w * h` is the flat index of its own row and column. |
| GridIndex.Injective | src/utils/FluidSimulation.js:61-64 | Distinct grid cells have distinct flat indices. |
| GridIndex.InBounds | src/utils/FluidSimulation.js:61-64 | The flat index of a cell of the grid is below `w * h`. |
| Fluid.Create | src/utils/FluidSimulation.js:2-19 | The constructor sizes the four arrays for the staggered grid and fills them with zeros. |
| Fluid.Clear | src/utils/FluidSimulation.js:258-263 | `clear` zeroes all four arrays and keeps their sizes. |
| Fluid.WorldGridRoundTrip | src/utils/FluidSimulation.js:22-35 | `worldToGrid` and `gridToWorld` are mutually inverse. |
| Fluid.ClampCoord | src/utils/FluidSimulation.js:50-51 | The clamped coordinate lies in `[0, size - 1.001]`, and coordinates inside are unchanged. |
| Fluid.Locate | src/utils/FluidSimulation.js:50-59 | The stencil corner plus its fractional offsets is the clamped point, and all four corners lie inside the array. |
| Fluid.BilinearAsLerps | src/utils/FluidSimulation.js:66-69 | The four-weight formula is a lerp along x followed by a lerp along y. |
| Fluid.BilinearBetween | src/utils/FluidSimulation.js:66-69 | With offsets in [0, 1] the blend lies between the smallest and largest corner. |
| Fluid.Gather | src/utils/FluidSimulation.js:61-64 | The four values read are those at `idx00`, `idx10`, `idx01` and `idx11`. |
| Fluid.InterpolateBetween | src/utils/FluidSimulation.js:49-70 | A sample lies between the smallest and largest of the four entries it reads. |
| Fluid.InterpolateAtNode | src/utils/FluidSimulation.js:49-70 | Sampling at an interior grid node returns the stored value. |
| Fluid.SampleAtFaces | src/utils/FluidSimulation.js:38-46 | Sampling at a face centre returns that face's stored velocity. |
| FluidStep.FalloffRange | src/utils/FluidSimulation.js:83-85 | The falloff is a weight in [0, 1], positive exactly inside the radius and 1 at the centre. |
| FluidStep.PushStep | src/utils/FluidSimulation.js:79-97 | One inner iteration adds `force * falloff` to the face of its node and nothing else. |
| FluidStep.PushFace | src/utils/FluidSimulation.js:79-97 | The write to one face matches the next step of the specification of the double loop. |
| FluidStep.PushRow | src/utils/FluidSimulation.js:78-99 | The inner loop over a row leaves both arrays as the specification after that row. |
| FluidStep.AddForce | src/utils/FluidSimulation.js:73-101 | Only the velocity arrays change, and they equal the push specification for the force point mapped to the grid. |
| FluidStep.PushedEntry | src/utils/FluidSimulation.js:73-101 | A face outside the radius or the visited block is unchanged; any other face moves toward the force by at most the force. |
| FluidStep.PushedNoRadius | src/utils/FluidSimulation.js:73-101 | A non-positive radius changes nothing. |
| FluidStep.ZeroUWalls | src/utils/FluidSimulation.js:178-181 | The first loop zeroes exactly the left and right wall faces of U. |
| FluidStep.ZeroVWalls | src/utils/FluidSimulation.js:184-187 | The second loop zeroes exactly the bottom and top wall faces of V. |
| FluidStep.ApplyBoundaries | src/utils/FluidSimulation.js:175-188 | Wall faces become zero; every other face keeps its value. |
| FluidStep.WallsOfZeroed | src/utils/FluidSimulation.js:175-188 | Zeroing the wall faces in flat form closes every wall in grid form. |
| FluidStep.DivergenceOfCell | src/utils/FluidSimulation.js:104-120 | The entry of cell (i, j) is its net outflow through its four faces. |
| FluidStep.RowTelescopes | src/utils/FluidSimulation.js:104-120 | The divergences along a row telescope to the end U faces plus the V face row sums. |
| FluidStep.GridTelescopes | src/utils/FluidSimulation.js:104-120 | Discrete divergence theorem: the total divergence is the net flow through the four walls. |
| FluidStep.ClosedBoxHasNoNetDivergence | src/utils/FluidSimulation.js:104-120 | With the walls at rest, the divergences of all cells add up to zero. |
| FluidStep.PressureSweep | src/utils/FluidSimulation.js:128-143 | A Jacobi sweep changes interior cells only. |
| FluidStep.SolvePressure | src/utils/FluidSimulation.js:123-145 | After any number of sweeps from zero, the border cells still hold pressure 0. |
| FluidStep.JacobiFixedPoint | src/utils/FluidSimulation.js:130-141 | A pressure array is fixed by a sweep exactly when it solves the discrete Poisson equation in every interior cell. |
| FluidStep.SubtractGradient | src/utils/FluidSimulation.js:148-172 | Only velocities change, and wall faces keep their values. |
| FluidStep.SubtractedU | src/utils/FluidSimulation.js:152-160 | A U face between two cells loses their pressure difference. |
| FluidStep.SubtractedV | src/utils/FluidSimulation.js:163-171 | A V face between two cells loses their pressure difference. |
| FluidStep.GradientChangesDivergence | src/utils/FluidSimulation.js:148-172 | The projection lowers an interior cell's divergence by the discrete Laplacian of the pressure. |
| FluidStep.ProjectionRemovesDivergence | src/utils/FluidSimulation.js:123-172 | With a pressure the sweep leaves fixed, the projected field has no divergence in any interior cell. |
| FluidStep.DiffusionWeightRange | src/utils/FluidSimulation.js:191-229 | The diffusion weight lies strictly between 0 and 1/4. |
| FluidStep.DiffuseSweep | src/utils/FluidSimulation.js:199-224 | A diffusion sweep changes interior entries only. |
| FluidStep.DiffuseSweepBounded | src/utils/FluidSimulation.js:199-224 | Maximum principle: a sweep never leaves a bound every entry already keeps. |
| FluidStep.DiffuseSweepKeepsConstant | src/utils/FluidSimulation.js:199-224 | A uniform field is left unchanged by a sweep. |
| FluidStep.Diffusion | src/utils/FluidSimulation.js:198-228 | Edge entries never change and every earlier bound survives any number of sweeps. |
| FluidStep.ApplyViscosity | src/utils/FluidSimulation.js:191-229 | Only velocities change. Every bound on them survives, and closed walls stay closed. |
| FluidStep.NonInteriorKeepsWalls | src/utils/FluidSimulation.js:191-229 | Changing only interior entries keeps closed walls closed. |
| FluidStep.Dissipate | src/utils/FluidSimulation.js:248-254 | The in-place loop multiplies every entry by the factor. |
| FluidStep.ScaledBounded | src/utils/FluidSimulation.js:248-254 | A factor in [0, 1] keeps zeros at zero and never leaves a bound. |
| FluidStep.ScaledKeepsWalls | src/utils/FluidSimulation.js:248-254 | Closed walls stay closed under any factor. |
| FluidStep.Step | src/utils/FluidSimulation.js:232-255 | After a step the walls are closed and the border cells' pressure is zero. |

## Left out

- Rendering: three.js meshes, materials, shaders, cameras, OrbitControls, canvas text rasterisation,
  CSS and HTML templates. None of these decide behaviour that the handlers expose.
- Trigonometric placement is left out, because it is floating-point geometry with no discrete
  contract. This covers:
  - `latLonToVector3` and spherical star coordinates;
  - the tunnel's Catmull-Rom curve points and camera projection;
  - the hero's circular tile layout.
  Tween targets record which placement rule a particle uses, not the resulting coordinates.
- The gsap easing curves and the resolution of timeline clocks are left out. A tween keeps its
  placement (`At(t)` or "at the end") and delay; when it runs is gsap's business.
- Timers and I/O are inputs or are left out. This covers `setTimeout`, `delayedCall`,
  `requestAnimationFrame`, `fetch`, the reCAPTCHA widget and `window.location` assignments. The
  form's network result, the loaded page module and the typewriter's ticks are parameters.
- `transformToMap` and `createMapPositions` are never called from any handler, so `isMapFormed`
  stays false. `pinParticles` and `unpinParticles` are never called either, so `isPinned` stays false.
- The fluid branch of `updateParticles` and `onMouseMove` (`updateParticlesWithFluid`) is left out:
  `useFluidSimulation` is the constant `false`.
- Floating-point rounding is not modelled. Every JavaScript number, whether a `Float32` array entry or a double, is an exact real. `Math.PI` is the decimal 3.141592653589793.
- Performance.Lerp: the end points hold over exact reals, not over the program's doubles; `lerp(-0.1, 0.3, 1)` gives 0.30000000000000004.
- Performance.LerpBetween: the bounds hold over exact reals, not in doubles: the same `lerp(-0.1, 0.3, 1)` lands above its upper end 0.3.
- Hero.LetterLayout: the 0.9 spacing and the symmetry hold over exact reals; in doubles the outer letters sit at -1.8000000000000003 and 1.7999999999999998, and the middle one at -2.220446049250313e-16.
- Fluid.WorldGridRoundTrip: the round trip holds over exact reals; in doubles `gridToWorld(worldToGrid(0.3))` gives 0.29999999999999716.
- Tunnel.HighlightAt: the peak `scale == 1.2` iff distance 0 holds over exact reals. In doubles, a distance below about 1e-16 also rounds `1 - d` to 1 and gives the peak.
- Tunnel.HighlightFalls: strict monotonicity holds over exact reals. In doubles, two nearby distances can round to the same targets.
- News.Lower: folds only the ASCII letters A-Z, while `toLowerCase` folds every Unicode letter. The news categories are ASCII.
- Router.Navigate: the pathname is the href cut at the first `?` or `#`. Several browser behaviours are not modelled:
  - URL resolution: dot segments and percent-encoding are not normalised, and a protocol-relative `//host/x` href (which `a[href^="/"]` lets through) makes `pushState` throw a SecurityError in the browser;
  - concurrency: `handleRoute` is not awaited (router.js:55), so two quick navigations can finish out of order;
  - exceptions from `destroy`, `new Page` or `render` (router.js:41-47): the catch swallows them, after `currentPage` may already have been replaced.
  Each call is modelled as completing in order and without throwing.
- FluidStep.Step: the factor `Math.pow(0.95, dt)` is a parameter, because the real power function
  is outside Dafny's arithmetic.
- FluidStep.ApplyViscosity: the contract states bounds, wall closure and unchanged edge entries,
  not the exact value after five sweeps. The weight is fixed to the constructor's viscosity 0.1
  and time step 0.016, and the U and V sweeps run as two independent loops, since each sweep
  reads and writes only its own array.
- FluidStep.AddForce: the `dist < radius` write is stated through a falloff that is zero outside
  the radius, so the model always writes. The written value is the same.
- FluidStep.SolvePressure: the contract states the border values and the fixed-point
  characterisation, not convergence of ten Jacobi sweeps.
- Demo.OnProcessed: the pin geometry and marker meshes of `addPin` are left out; a pin keeps its
  name, coordinates and animation delay.
- Typewriter.Tick: the 80 ms and 30 ms pacing is the host's timer. The deleting branch is modelled,
  but no path through `type()` ever sets `isDeleting`.
- Tunnel.OnScroll: the camera position and look-at tweens along the curve and the randomised
  floaters are left out. Floaters are counted, not placed.
- Hero.TransitionTweens: the `transitionToGlobe` shader tweens and the globe mesh creation are left out.
- ParticleMotion.RadialPullInward: `cos(atan2(y, x))` and `sin(atan2(y, x))` are written as
  `x / d` and `y / d` with `d` the distance, which is exact over the reals. `Math.sqrt` is an
  oracle parameter.
- The minified bundles under `assets/` and the entry points are left out. They duplicate or
  bootstrap the sources above.

## Findings

| source | as written | input that shows it | evidently intended | confidence | as-written member | corrected member |
|---|---|---|---|---|---|---|
| src/scenes/FeatureTunnel.js:21-27 | `init` pushes four more panels on every entry; `dispose` (252-263) never clears the list. The scroll handler (213-214) then places its highlight with `panels.length + 1` in the denominator. | Entering the tunnel, scrolling to the demo, and scrolling back (App.js:121-123): eight panels, and the first panel is highlighted around 1/9 while it sits at 1/5. | One panel per feature, each highlighted at the slot where it was placed. | high, not executed | Tunnel.ReentryMisplacesHighlight | Tunnel.HighlightMatchesPlacement |
| src/components/DockBar.js:84-93 | `currentPath` is `#/maps` (it keeps the '#'), while `href.split('#')[1]` is `/maps` (without it), so the comparison never holds. | The location hash `#/maps`: no dock item gets the `active` class, nor does Home with an empty hash. | The item whose route the hash names is active. | high, not executed | DockBar.NoItemEverActive | DockBar.IntendedHighlightsCurrent |
