# Annotation canvas interaction model

A Dafny model of the interaction logic of the `Canvas` React component: a
browser widget over a background image on which the user drags out
rectangles, toggles a red highlight by clicking inside them, and types caret
text at the press point. The component's state (`startCoordinates`,
`endCoordinates`, `isDrawing`, `rectangles`, `selectedRectangleId`, `text`,
`mode` and the `lastDrawnTime` ref) is one immutable `Canvas.State` record,
and each event handler is one pure transition on it:

- `MouseDown` anchors a gesture and clears the caret text;
- `MouseMove` tracks the live end point during a gesture;
- `MouseUp` builds the normalised rectangle (min corner, absolute extents),
  appends it only when both extents exceed 5 and the mode is `rect`, and ends
  the gesture in every case;
- `Click` is ignored less than 200 ms after a commit; otherwise it runs the
  inclusive hit test over the list and toggles the selection by recolouring;
- `KeyDown` edits the text (Backspace, or a one-character key) while an anchor
  exists.

The DOM inputs become parameters: the canvas-local point `(x, y)`, the clock
reading `now` in milliseconds, the id the id generator would return, and the
key name. Coordinates are `real` (the handlers only use `min`, `abs`, `+`, `-`
and comparisons), times are `int`, ids are strings, colours are the two-valued
`Colour` (brown default, red selected).

Modules: `Wrappers` (the optional value), `Shapes` (points, rectangles,
normalisation, hit test), `HitTest` (the click handler's scan), `TextEdit`
(key editing, with ECMAScript's `String.prototype.slice`), `Canvas` (state and
handlers), `Session` (event sequences and the invariants of reachable states),
`Scenarios` (worked examples).

Behaviour of the code that a reader might not expect (the model follows the code):

- The click scan assigns the remembered id on every containing rectangle, so
  the selection is the LAST containing rectangle in list order and EVERY
  containing rectangle is highlighted. It is not "first match wins", and two
  overlapping rectangles can both be highlighted (`Scenarios.OverlapHighlightsAll`).
  What does hold is `Session.SelectionConsistent`: with nothing selected all
  rectangles are default-coloured, and a selected id is carried by some
  highlighted rectangle.
- The key handler does not check the mode (`Canvas.KeyDownIgnoresMode`).
- The release clears the anchor in every mode, not only in rectangle mode. So
  after a press on the canvas the key handler edits text only until the next
  release on the canvas (`Canvas.ReleaseEndsTyping`); a release outside the
  canvas is not seen by the canvas's release handler and leaves the anchor set.
- `lastDrawnTime` is set only when a rectangle is committed, not on every release.

## Model

| member | source | states |
|---|---|---|
| Shapes.FromDrag | src/components/Canvas.tsx:87-94 | the new rectangle's edges on each axis are exactly the two dragged coordinates, its width and height are non-negative, it carries the given id and the default colour |
| Shapes.FromDragDirectionFree | src/components/Canvas.tsx:88-91 | the rectangle is the same whichever way the drag went, along either diagonal |
| Shapes.FromDragContains | src/components/Canvas.tsx:126-131 | a point hits a drawn rectangle iff it lies between the two dragged corners on both axes (bounds inclusive), so both corners hit it |
| HitTest.Paint | src/components/Canvas.tsx:126-141 | a scanned rectangle keeps its id and geometry and turns red iff it contains the click |
| HitTest.Highlight | src/components/Canvas.tsx:125-142 | the recoloured list has the same length, ids and geometry, and its i-th rectangle is red iff the i-th original contains the click |
| HitTest.ClearHighlight | src/components/Canvas.tsx:149-154 | the deselect list keeps length, ids and geometry, and every rectangle is default-coloured |
| HitTest.LastHit | src/components/Canvas.tsx:123-133 | the remembered id is present iff some rectangle contains the click, and then it is the id of a containing rectangle after which none contains it |
| HitTest.LastHitIgnoresColour | src/components/Canvas.tsx:126-131 | recolouring a list does not change which id any click hits |
| HitTest.ScanClick | src/components/Canvas.tsx:123-142 | the single pass that overwrites the id on each hit yields the last hit and the highlighted list |
| TextEdit.Slice | src/components/Canvas.tsx:213 | `slice(begin, end)` agrees with ordinary slicing for in-range indices, counts a negative index back from the end and clamps it to the string, returns the characters between the resolved begin and end, and gives the empty string when the resolved end does not lie after the resolved begin |
| TextEdit.ApplyKey | src/components/Canvas.tsx:212-216 | Backspace removes the last character and leaves the empty text empty, a one-character key is appended, any other key leaves the text alone |
| TextEdit.BackspaceUndoesKey | src/components/Canvas.tsx:212-215 | Backspace right after a one-character key restores the text |
| TextEdit.TypePrintable | src/components/Canvas.tsx:214-215 | typing only one-character keys appends them in order |
| TextEdit.TypingExample | src/components/Canvas.tsx:211-216 | A, B, Backspace, C typed into the empty text yields "AC" |
| Canvas.MouseDown | src/components/Canvas.tsx:50-62 | the anchor becomes the press point, drawing is on and the text is empty; the rectangles, selection, mode, end point and commit time are unchanged |
| Canvas.MouseMove | src/components/Canvas.tsx:64-76 | during a gesture only the end point changes, to the pointer; outside a gesture nothing changes |
| Canvas.MouseUp | src/components/Canvas.tsx:78-111 | outside a gesture nothing changes; in one the gesture ends, the old list stays a prefix, exactly one rectangle (the normalised drag) is appended iff both extents exceed 5 and the mode is rect, and the commit time becomes `now` only then |
| Canvas.Click | src/components/Canvas.tsx:113-160 | a click inside the guard window changes nothing; otherwise only colours and the selection change; a hit other than the selection becomes the selection with exactly the containing rectangles red; a hit equal to the selection deselects and clears every highlight |
| Canvas.KeyDown | src/components/Canvas.tsx:209-220 | without an anchor nothing changes; only the text ever changes; Backspace shortens the text by one as a prefix, a one-character key is appended, other keys change nothing |
| Canvas.SetMode | src/components/Canvas.tsx:252-255 | the mode selector sets the mode and nothing else |
| Canvas.MoveDoesNotAffectRelease | src/components/Canvas.tsx:64-91 | the live end point is never read by the release, so moving first never changes its outcome |
| Canvas.PressReleaseCommits | src/components/Canvas.tsx:50-111 | a press then a release commit exactly the normalised drag rectangle, appended, when both extents exceed 5 in rect mode, and leave the list and commit time unchanged otherwise |
| Canvas.CommitShieldsClick | src/components/Canvas.tsx:96-116 | a click less than 200 ms after a committing release changes nothing |
| Canvas.ClickTwiceDeselects | src/components/Canvas.tsx:144-156 | a click that changed the selection, repeated at the same point, leaves nothing selected and every rectangle default-coloured, with shapes unchanged |
| Canvas.ReleaseEndsTyping | src/components/Canvas.tsx:105-107 | after a release ends a gesture, every key press leaves the state unchanged |
| Canvas.KeyDownIgnoresMode | src/components/Canvas.tsx:211-216 | the text a key produces is the same in rect and text mode |
| Session.InitInvariant | src/components/Canvas.tsx:27-38 | the mount state is gesture-consistent, stores no rectangle and has a consistent selection |
| Session.StepPreservesInvariant | src/components/Canvas.tsx:50-220 | every handler keeps the anchor/drawing agreement, the commit threshold of every stored rectangle, and the colour/selection agreement |
| Session.RunPreservesInvariant | src/components/Canvas.tsx:50-220 | every state reached by a sequence of events keeps those invariants |
| Session.StepKeepsShapes | src/components/Canvas.tsx:101-154 | no handler deletes, moves or reshapes a stored rectangle |
| Session.RunKeepsShapes | src/components/Canvas.tsx:101-154 | over any event sequence the old list stays, up to colour, a prefix of the new one |
| Scenarios.DragSelectDeselect | src/components/Canvas.tsx:87-156 | a drag from (10,10) to (60,70) commits {10, 10, 50, 60}; a click at (30,30) selects it and a second click deselects it |
| Scenarios.TerminatingClickIgnored | src/components/Canvas.tsx:115-116 | the click 50 ms after a committing release leaves the state as the release did |
| Scenarios.SmallDragDiscarded | src/components/Canvas.tsx:96-100 | a drag of exactly 5 on one axis commits nothing and sets no commit time |
| Scenarios.OverlapHighlightsAll | src/components/Canvas.tsx:125-146 | a click in the overlap of two rectangles highlights both and selects the later one |
| Scenarios.TypeWhileHeld | src/components/Canvas.tsx:56-57 | with the pointer held, A, B, Backspace, C gives "AC" in either mode, and after the release keys change nothing |

## Left out

- Rendering (`drawCanvas`): 2D canvas calls and font metrics, side effects only.
- Image loading: an asynchronous network and DOM callback.
- Window resize sizing: reads the window and does floating-point percentages turned into strings.
- Listener registration and teardown, `useCallback`/`useEffect` scheduling and React's batching of state updates: each handler is one atomic transition on the current state.
- Translating `clientX`/`clientY` through `getBoundingClientRect` into canvas-local coordinates: the point is an input. The branches taken when no canvas is mounted (`if (rect)`) are dropped.
- The id generator in src/utils/generate-unique-id.ts: it reads the clock and a random number; ids are inputs and no property relies on them being distinct.
- The `Date.now()` clock: `now` is an input, and nothing assumes successive readings increase.
- `console.log` of the rectangle list.
- Colours are the two named values, not the CSS colour strings.
- Shapes.FromDrag: JavaScript numbers are IEEE doubles; the model uses exact reals, so the rounding of `x1 - x0` and of `startX + width` in the hit test is not modelled.
- TextEdit.ApplyKey: a key of length 1 is one Dafny character (a Unicode scalar value), whereas JavaScript counts UTF-16 code units; a key outside the Basic Multilingual Plane is appended here but ignored by the browser code.
