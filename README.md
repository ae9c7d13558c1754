# GutiFoods catalogue viewer: a Dafny model

The repository's build script, `generator/generar_catalogo.py`, does three things. It turns a PDF catalogue into one JPEG per page. If it cannot, it reuses the images already in the `pages` directory. It then writes an HTML page whose embedded script shows the pages as a flip book.

This project models the decision logic of that script:

- **Page list** (`Pages`, `Ordering`, `Text`).
  - The conversion path names the pages `page_1.jpg` … `page_n.jpg`.
  - The fallback path keeps the directory entries whose lower-cased name ends in `.jpg`, `.jpeg` or `.png`.
  - It sorts them stably by the integer formed from their digits. If some name has no digit, it sorts them in plain string order instead.
  - It exits with status 1 when nothing is found.
- **Markup** (`Markup`). The loop that emits one page element per image. The first and last pages get the cover class `turn-page hard`.
- **Counter** (`Counter`). The text `Página p de t` that `updateCounter` shows.
- **Layout** (`Layout`). The arithmetic of `resizeBook`, over exact reals:
  - the margin (20 or 50);
  - the single/double breakpoint on the available width;
  - half the spread's ratio in single mode;
  - fitting by height or by width.
- **Input handling** (`Input`, `ViewerScript`). The script keeps two variables: `isZoomed` and the wheel timer `scrollTimeout`. The timer is modelled as the time until which wheel events are dropped.
  - `Input` gives each handler as a pure reaction. The reaction is the new variables plus the commands sent to the page-flip book or to the page style.
  - `ViewerScript.Viewer` is the same handlers as a class with those two fields. Each method that reads or changes the variables is proved to react as its `Input` function. The two button methods state their single turn command directly; `Input.ButtonRouting` proves that `Input.Handle` sends the same command.
  - The page-flip library is an opaque sink. `turn('next')` and `turn('previous')` are recorded as commands, and the model tracks only the size and display mode the book was last given.

Inputs that the script reads from its environment are parameters of the model:

- the number of pages the conversion produced, or the fact that it failed together with the number of pages saved before the failure;
- the directory listing (`None` when the directory does not exist);
- the window size at each event;
- the wheel event's time stamp;
- the click position relative to the book.

`resizeBook` divides by the available height. Every function that reaches that arithmetic therefore requires `winHeight - margin > 0`. In the script it is the caller's responsibility to provide such a window; nothing guards it. The facts about fitting also assume a positive available width.

Some behaviour of the script is worth stating outright:

- The script has no `gotoPage`, no page clamping and no dropping of commands that arrive mid-turn. Whatever of that exists sits inside the page-flip library, which the script only calls.
- Zooming in cancels nothing. It only changes styles.
- The counter reads `Página p de t`.
- A successful conversion that yields zero pages does not exit. The exit with status 1 is reached only on the failure path.
- A failure part-way through the conversion loop keeps the names already appended. They are replaced by the directory's image files only when the `pages` directory exists, so with the directory gone the script goes on with the partial list.
- The image filter lower-cases the name, so `.JPG`, `.Jpeg` and `.PNG` are accepted too.

## Model

| member | source | states |
|---|---|---|
| Pages.ConvertPages | generator/generar_catalogo.py:32-38 | the conversion loop yields `page_1.jpg` … `page_n.jpg`, one per converted page, in page order |
| Pages.PageNameIsImage | generator/generar_catalogo.py:34 | every converted page name passes the fallback's jpg/jpeg/png filter |
| Pages.PageNameKey | generator/generar_catalogo.py:34 | the digits of `page_k.jpg` form exactly `k`, so the numeric sort key of page `k` is `k` |
| Pages.ConvertedPages | generator/generar_catalogo.py:32-38 | the conversion path is never an exit; it lists `n` image names whose numeric keys are `1..n` and strictly increase |
| Pages.KeepImages | generator/generar_catalogo.py:47 | each name is kept exactly as often as the listing has it when it has a jpg/jpeg/png extension (any case), and is dropped otherwise |
| Pages.SelectPages | generator/generar_catalogo.py:26-58 | the script's page-list step, statement by statement, equals the page-list specification: after a failure the names appended so far stand unless the directory exists, in which case its sorted image files replace them |
| Pages.ExitExactly | generator/generar_catalogo.py:42-58 | the script exits, always with status 1, if and only if conversion failed and either the directory exists and holds no image file, or it is missing and no page had been saved before the failure |
| Pages.InterruptedConversion | generator/generar_catalogo.py:26-55 | a failure after `k > 0` saved pages with the directory missing does not exit, and the page list is the first `k` pages of the full conversion, page `i + 1` at position `i` |
| Pages.ImageNameIgnoresCase | generator/generar_catalogo.py:47 | the image filter gives the same answer for a name and its lower-cased form |
| Pages.UpperCaseExtensions | generator/generar_catalogo.py:47 | any name ending in `.JPG`, `.JPEG` or `.PNG` passes the image filter |
| Pages.FallbackPages | generator/generar_catalogo.py:46-53 | when the directory exists, the page list is a permutation of its kept image files, whatever was saved before the failure. If every kept name has a digit, it is non-decreasing by numeric key and stable. Otherwise it is in string order |
| Pages.FallbackRecoversConversion | generator/generar_catalogo.py:32-53 | if the directory's images are exactly the pages of an earlier conversion, in any listing order, the fallback gives the same list as the conversion, however many pages the failed run had saved |
| Ordering.Sort | generator/generar_catalogo.py:50-52 | sorting rearranges the names without adding or losing any |
| Ordering.SortSorted | generator/generar_catalogo.py:50-52 | the sorted list is ordered pairwise under the chosen rule (numeric key or string order) |
| Ordering.SortStable | generator/generar_catalogo.py:50 | names with equal numeric keys keep their relative order from the listing |
| Ordering.OrderFilesSpec | generator/generar_catalogo.py:49-52 | if every name has a digit, the key sort is used, and it is sorted and stable. Otherwise the string sort is used. Both are permutations |
| Ordering.SortedUnique | generator/generar_catalogo.py:50 | a list with strictly increasing numeric keys is the only sorted arrangement of its elements |
| Text.LexLeTotal | generator/generar_catalogo.py:52 | Python's string order is total: of any two names one sorts first |
| Text.LexLeTransitive | generator/generar_catalogo.py:52 | Python's string order is transitive |
| Text.LexLeAntisymmetric | generator/generar_catalogo.py:52 | two names that each sort no later than the other are equal |
| Text.DecimalRoundTrip | generator/generar_catalogo.py:34 | `int()` of the decimal rendering of `k` is `k` |
| Text.LowerStringIdempotent | generator/generar_catalogo.py:47 | `str.lower` applied twice is the same as once |
| Text.LowerStringConcat | generator/generar_catalogo.py:47 | lower-casing a concatenation lower-cases each part |
| Text.DigitsConcat | generator/generar_catalogo.py:50 | collecting digits distributes over concatenation of names |
| Markup.RenderPages | generator/generar_catalogo.py:240-247 | the `html +=` loop emits the page elements for all images, in order, each with its class |
| Markup.CoverPagesSpec | generator/generar_catalogo.py:240-245 | a page gets `turn-page hard` iff it is the first or the last. Every other page is plain `turn-page`. There are `min(n, 2)` cover pages, so a one-page book is all cover |
| Counter.CounterRoundTrip | generator/generar_catalogo.py:257-260 | the counter text `Página p de t` parses back to exactly `p` and `t` |
| Counter.CounterTextInjective | generator/generar_catalogo.py:257-260 | different page/total pairs never show the same counter text |
| Layout.Breakpoints | generator/generar_catalogo.py:270-276 | the margin is 20 iff the window is narrower than 600, else 50. Single mode holds iff the window is narrower than 650 |
| Layout.ModeOfLayout | generator/generar_catalogo.py:272-276 | the display mode is double iff the available width is at least 600 |
| Layout.LayoutFits | generator/generar_catalogo.py:277-285 | for a positive box: width/height equals the mode's ratio, the book fits in the available box, and it touches the box on at least one side |
| Layout.LayoutLargest | generator/generar_catalogo.py:279-285 | no other box of the mode's ratio that fits the available area is wider or taller |
| Layout.WideWindow | generator/generar_catalogo.py:262-285 | a 1200×800 window gives height 750, width 750·920/650, double mode |
| Layout.NarrowWindow | generator/generar_catalogo.py:262-285 | a 500×800 window gives width 480, height 480/(460/650), single mode |
| Input.ResizeBookSpec | generator/generar_catalogo.py:262-290 | resizeBook does nothing while zoomed. Otherwise it gives the book the computed layout, changes no variable and turns no page |
| Input.ApplyLayoutEffects | generator/generar_catalogo.py:287-289 | the size, display and center commands leave the book with exactly the computed size and mode |
| Input.ApplyStyle | generator/generar_catalogo.py:339-349 | the zoom style changes do not touch the book's size or mode and turn no page |
| Input.KeyRouting | generator/generar_catalogo.py:317-323 | key 37 turns back and key 39 turns forward, always. Escape unzooms only when zoomed and is otherwise a no-op, as are all other keys |
| Input.ButtonRouting | generator/generar_catalogo.py:368-369 | the prev/next buttons turn back/forward whatever the zoom and the wheel timer are |
| Input.PointerRouting | generator/generar_catalogo.py:359-366 | clicks and wheel events do nothing while zoomed. Otherwise a click with `x > width/2` turns forward and any other click turns back |
| Input.WheelDebounce | generator/generar_catalogo.py:326-333 | a wheel event during the cooldown is dropped. Otherwise it starts a 250 ms cooldown and turns forward iff `deltaY > 0` |
| Input.TwoWheels | generator/generar_catalogo.py:326-333 | two wheel events `gap` ms apart turn one page if `gap < 250` and two otherwise |
| Input.ZoomOnlyByToggle | generator/generar_catalogo.py:317-356 | zoom flips iff the event is a double-click, or Escape while zoomed. No event other than a wheel event touches the timer (that a dropped wheel event leaves it alone is `Input.WheelDebounce` and `Input.PointerRouting`) |
| Input.ToggleTwice | generator/generar_catalogo.py:336-351 | toggling twice restores both variables, and the book ends with the layout of the current window |
| Input.ZoomFreezesLayout | generator/generar_catalogo.py:263 | while zoom stays on, no event changes the book's size or mode |
| Input.HandleKeepsSynced | generator/generar_catalogo.py:262-373 | every event keeps "unzoomed ⇒ the book has the current window's layout", and a resize event re-establishes it |
| Input.StartupSynced | generator/generar_catalogo.py:292-375 | after startup, zoom is off, no wheel timer runs, and the book has the window's layout |
| Input.RunSynced | generator/generar_catalogo.py:262-375 | over any session where size changes come with resize events, the book shows the current window's layout whenever zoom is off |
| ViewerScript.Viewer.constructor | generator/generar_catalogo.py:255 | the script starts unzoomed with no wheel timer |
| ViewerScript.Viewer.Ready | generator/generar_catalogo.py:292-375 | startup creates the 920×650 double book, then lays it out for the window |
| ViewerScript.Viewer.ResizeBook | generator/generar_catalogo.py:262-290 | the method sends exactly the commands of the resizeBook reaction |
| ViewerScript.Viewer.ToggleZoom | generator/generar_catalogo.py:336-352 | the method updates `isZoomed` and sends the commands of the toggle reaction |
| ViewerScript.Viewer.OnKeyDown | generator/generar_catalogo.py:317-323 | the key handler reacts as the key reaction |
| ViewerScript.Viewer.OnWheel | generator/generar_catalogo.py:326-333 | the wheel handler updates the timer and reacts as the wheel reaction |
| ViewerScript.Viewer.OnDoubleClick | generator/generar_catalogo.py:354-356 | a double-click toggles zoom |
| ViewerScript.Viewer.OnClick | generator/generar_catalogo.py:359-366 | the click handler sends what the click reaction sends, and changes no variable |
| ViewerScript.Viewer.OnPrevButton | generator/generar_catalogo.py:368 | the prev button sends one backward turn |
| ViewerScript.Viewer.OnNextButton | generator/generar_catalogo.py:369 | the next button sends one forward turn |
| ViewerScript.Viewer.OnWindowResize | generator/generar_catalogo.py:371-373 | a window resize sends what resizeBook sends |

## Left out

- PDF conversion, PIL's RGB conversion and JPEG saving, `os.makedirs`, `os.listdir` and writing `index.html` are I/O and foreign libraries. The model takes the page count, the failure and the listing as inputs.
- Conversion errors other than the two caught ones propagate out of the script, so they are not modelled. When `pdf2image.exceptions` cannot be imported (lines 3-6), every exception is caught. That case is the same as the caught failure: the failure carries the number of pages saved before it, whether it came from reading the PDF (zero) or from saving a page.
- The printed progress and error messages are console output.
- The HTML/CSS template text, the jQuery `$.browser` patch and the CSS media queries are static markup with no decisions.
- Page-flip library internals are not part of this model: the page cursor, bounds clamping, turn animation, and the `turned`/`start` callbacks. Which page a `turn('next')` reaches is therefore not stated.
- The 1000 ms loader timer with its `fadeOut` and its `updateCounter(1)` is timer plumbing. Only the counter text itself is modelled.
- The translation and scale transforms, z-index and overflow are recorded as the `Enlarge` and `Restore` commands only.
- jQuery's `offset()` and `width()` are not modelled: a click arrives with its position already measured from the book's left edge.
- The browser fires two `click` events before each `dblclick`. The model handles events only as delivered.
- IEEE floating point is not modelled: layout arithmetic is over exact reals.
- Windows whose height does not exceed the margin are excluded by precondition. There, JavaScript would divide by zero or by a negative number.
- `setTimeout(…, 250)` may fire late. The model treats the wheel timer as clearing exactly 250 ms after the accepted event.
- Only ASCII is modelled for `str.isdigit`, `str.lower` and `int()`. Python also counts other Unicode digits as digits. Some of them, such as `²`, make `int()` raise and so select the string sort. Non-ASCII case mapping is not modelled either.
- Python's limit of 4300 digits for `int()` of a string is not modelled. A longer run of digits would raise and also select the string sort.
- Ordering.Sort: it is an insertion sort that stands for Python's stable `list.sort`. The proved facts are sortedness, permutation and stability; that these three together determine the result is not proved in general.
- Pages.KeepImages: its contract states the kept names with their multiplicities, not that the comprehension keeps the listing's order. The definition, which the rest of the model uses, keeps it.
