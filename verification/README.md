# flexmark list-item continuation, modelled in Dafny

This project models the list-item continuation engine of flexmark-java's block
parser: `ListItemParser`, the parser of one open list item. The engine runs once
per input line for each open item. From the line's indent, column and
blank-ness, and from the result of a list-marker scan, it decides how the item
continues:

- keep the line at a column, as child content, indented code, a lazy
  paragraph continuation or a nested list;
- stop matching so that a sibling item can start;
- stop matching so that a new list can start;
- stop matching altogether.

Each decision also reports an "item handled" signal to the parser of the list
that owns the item. There are four dialect rule sets (emulation families):
CommonMark, MultiMarkdown, Kramdown and Markdown. The item remembers only two
flags from line to line: whether it has seen a blank line, and whether it is
still empty.

Files:

- `lists.dfy` (module `Lists`): marker geometry (`ListData`), the list node, the
  list options with their four marker-compatibility predicates, the item's view
  of its list's parser (`ListParent`), and the content column and content indent.
- `parser_state.dfy` (module `ParserStates`): the per-line parser state, and the
  scan of the active parser stack used by MultiMarkdown (`FindFirstParent`, a
  loop proved against `LeadingRun`, `ListCount` and `LastList`).
- `continuation.dfy` (module `Continuation`): the decision as pure functions.
  There is one rule per family. `Step` puts the common blank-line rule in front
  of them and computes the flag update. `Run` folds `Step` over a sequence of
  lines.
- `list_item_parser.dfy` (module `ListItemParsers`): the class
  `ListItemParser`. It has the two flag fields and the imperative `TryContinue`,
  which has the same branch structure as the source. Its postcondition says its
  result and its new flags are exactly those of `Step`.
- `properties.dfy` (module `ContinuationProperties`): lemmas about `Step` and
  `Run`.

Collaborators the model cannot see are inputs:

- The marker scan `ListBlockParser.parseListMarker` is the field
  `ParserState.listMarkerAt`, a function from the code-indent threshold to the
  scan result. CommonMark asks with its code indent; the other families ask
  with -1.
- The predicates `canInterrupt`, `canStartSubList`, `startSubList` and
  `startNewList` are function-typed fields of `ListOptions`. The model assumes
  nothing about them.
- What the item reads from its list's parser is the value `ListParent`: the
  list's `ListData`, its content indent, its node, and whether the list node's
  parent is a list item.
- The item node's "has a first child" is the parameter `hasChildren`.
- "The active parser is a paragraph that is the first child of a list item" is
  the field `ParserState.activeIsFirstParagraphInItem`.

The source asserts that the item's parent is a list block
(flexmark/src/main/java/com/vladsch/flexmark/internal/ListItemParser.java:77).
In the model this holds by typing, because `TryContinue` receives a
`ListParent`. The signal that the source records on the list parser through
`setItemHandled*` is returned by `TryContinue` instead.

Behaviour of the code worth noting:

- A marker line at the nesting threshold is a nested list, not plain child
  content: in CommonMark at the content indent
  (flexmark/src/main/java/com/vladsch/flexmark/internal/ListItemParser.java:106-122,
  unless it is a lazy continuation of a list item's first paragraph), in
  MultiMarkdown at the item indent (197-201) and in Kramdown at the list's
  content indent (272-277). See `CommonMarkMarkerInContent`,
  `MultiMarkdownThresholds` and `KramdownContentBands`.
- Only CommonMark refuses non-marker content for an empty item, and it still
  signals `ItemHandledLine` when it does (124-127). See `CommonMarkChildContent`.
- When `startNewList` holds, CommonMark signals `ItemHandledNewListLine` and
  returns no match (145-148). See `CommonMarkBelowContent`.
- `getContentColumn` (29) leaves out the marker length that `getContentIndent`
  (34) adds, so it is not the column where the content starts; the class never
  calls it (it is marked as unused). See `ContentColumn` and `ContentIndent`.

## Model

| member | source | states |
|---|---|---|
| `Lists.ContentColumn` | flexmark/src/main/java/com/vladsch/flexmark/internal/ListItemParser.java:28-30 | the marker column plus the content offset, without the marker's length |
| `Lists.ContentIndent` | flexmark/src/main/java/com/vladsch/flexmark/internal/ListItemParser.java:33-35 | the content indent lies past the marker (marker indent plus marker length plus content offset), exceeding the content column's distance from the marker column by the marker length |
| `ListItemParsers.NewListItem` | flexmark/src/main/java/com/vladsch/flexmark/internal/ListItemParser.java:23-24 | the item node is ordered exactly when the list data is numbered, and carries the marker text verbatim |
| `ListItemParsers.ListItemParser.constructor` | flexmark/src/main/java/com/vladsch/flexmark/internal/ListItemParser.java:16-25 | keeps the options and list data, opens an ordered or bullet item with the list marker, both flags false |
| `ListItemParsers.ListItemParser.IsContainer` | flexmark/src/main/java/com/vladsch/flexmark/internal/ListItemParser.java:37-40 | a list item is always a container |
| `ListItemParsers.ListItemParser.CanContain` | flexmark/src/main/java/com/vladsch/flexmark/internal/ListItemParser.java:42-45 | a list item accepts any child block |
| `ListItemParsers.ListItemParser.IsPropagatingLastBlankLine` | flexmark/src/main/java/com/vladsch/flexmark/internal/ListItemParser.java:47-50 | the last blank line propagates exactly when the item has a child or is the last matched parser |
| `ListItemParsers.ListItemParser.ContinueAtColumn` | flexmark/src/main/java/com/vladsch/flexmark/internal/ListItemParser.java:62-66 | continues at the given column, clears the empty flag, keeps the blank-line flag |
| `ListItemParsers.ListItemParser.TryContinue` | flexmark/src/main/java/com/vladsch/flexmark/internal/ListItemParser.java:68-339 | its continuation, signal and new flags are exactly `Step` of the old flags, so every lemma about `Step` holds of it; a blank line continues at the next non-space index with no signal and empty flag "no children"; the blank-line flag is set exactly by blank lines and never cleared; a kept line is signalled and leaves the item non-empty; no match keeps the empty flag |
| `ParserStates.LeadingRun` | flexmark/src/main/java/com/vladsch/flexmark/internal/ListItemParser.java:175-182 | the length of the leading run of list and list-item parsers: everything before it is in the run, the parser after it is not |
| `ParserStates.FindFirstParent` | flexmark/src/main/java/com/vladsch/flexmark/internal/ListItemParser.java:172-182 | the loop returns the last list parser of the leading run and the number of list parsers in it |
| `ParserStates.NoListLevelIffNoParent` | flexmark/src/main/java/com/vladsch/flexmark/internal/ListItemParser.java:184-186 | a list level of zero and a missing first parent coincide |
| `ContinuationProperties.BlankLine` | flexmark/src/main/java/com/vladsch/flexmark/internal/ListItemParser.java:70-75 | in every family a blank line continues at the next non-space index, sends no signal, sets the blank-line flag and sets the empty flag to "no children" |
| `ContinuationProperties.FlagUpdates` | flexmark/src/main/java/com/vladsch/flexmark/internal/ListItemParser.java:62-75 | keeping a line at a column leaves the item non-empty, no match leaves both flags unchanged, the blank-line flag is set exactly by blank lines and never cleared |
| `ContinuationProperties.SignalAgreesWithContinuation` | flexmark/src/main/java/com/vladsch/flexmark/internal/ListItemParser.java:69-338 | an index is returned exactly for blank lines; a non-blank line with no signal stops matching; every kept line is signalled; a new sibling item stops matching; a lazy skip-active line is kept |
| `ContinuationProperties.CommonMarkIndentedCode` | flexmark/src/main/java/com/vladsch/flexmark/internal/ListItemParser.java:97-102 | CommonMark at or past content indent plus code indent: `ItemHandledLine`, continuing at column plus content indent |
| `ContinuationProperties.CommonMarkChildContent` | flexmark/src/main/java/com/vladsch/flexmark/internal/ListItemParser.java:123-131 | CommonMark below the code threshold, at or past the content indent, no marker: `ItemHandledLine`; no match exactly when the item is empty, otherwise content at column plus content indent |
| `ContinuationProperties.CommonMarkMarkerInContent` | flexmark/src/main/java/com/vladsch/flexmark/internal/ListItemParser.java:104-122 | CommonMark, same band with a marker: always kept at column plus content indent; skip-active lazy continuation exactly when the active paragraph is a list item's first child and the marker may not interrupt or may not start a sub-list, nested list otherwise |
| `ContinuationProperties.CommonMarkBelowContent` | flexmark/src/main/java/com/vladsch/flexmark/internal/ListItemParser.java:133-157 | CommonMark below the content indent, in order: lazy continuation, sub-list, new list (no match), next item (no match); no marker means no match and no signal |
| `ContinuationProperties.MultiMarkdownIndentOutsideList` | flexmark/src/main/java/com/vladsch/flexmark/internal/ListItemParser.java:184-188 | with no list parser leading the stack, the MultiMarkdown current indent is the line indent |
| `ContinuationProperties.MultiMarkdownIndentInList` | flexmark/src/main/java/com/vladsch/flexmark/internal/ListItemParser.java:172-188 | inside lists the level is at least 1 and the current indent is column minus first-parent column plus first-parent indent minus item indent times (level - 1) |
| `ContinuationProperties.MultiMarkdownThresholds` | flexmark/src/main/java/com/vladsch/flexmark/internal/ListItemParser.java:190-206 | MultiMarkdown: code indent gives `ItemHandledLine`; item indent gives a nested list with a marker and `ItemHandledLine` without; both at column plus content indent |
| `ContinuationProperties.MultiMarkdownBelowItemIndent` | flexmark/src/main/java/com/vladsch/flexmark/internal/ListItemParser.java:207-224 | MultiMarkdown below the item indent: lazy continuation, then sub-list or next item for a marker at or past the item's marker indent, otherwise no match and no signal |
| `ContinuationProperties.KramdownContentBands` | flexmark/src/main/java/com/vladsch/flexmark/internal/ListItemParser.java:242-282 | Kramdown: at or past list content indent plus code indent, indented code; between the list content indent and that plus the item indent, nested list or child content, at column plus content indent |
| `ContinuationProperties.KramdownOuterBands` | flexmark/src/main/java/com/vladsch/flexmark/internal/ListItemParser.java:250-284 | Kramdown past list content indent plus item indent: a marker in a list nested in an item is left alone; otherwise lazy continuation, sub-list or next item; below the list content indent no match and no signal |
| `ContinuationProperties.MarkdownIndentedCode` | flexmark/src/main/java/com/vladsch/flexmark/internal/ListItemParser.java:301-314 | Markdown at or past list indent plus code indent: `ItemHandledLine`, at column plus indent before any blank line and at column plus list indent plus item indent after one |
| `ContinuationProperties.MarkdownBelowCode` | flexmark/src/main/java/com/vladsch/flexmark/internal/ListItemParser.java:316-338 | Markdown: past the list indent, nested list or child content; a marker exactly at the list indent after a blank line or when it may interrupt, next item and no match; otherwise no match and no signal |
| `ContinuationProperties.CommonMarkNestedThenText` | flexmark/src/main/java/com/vladsch/flexmark/internal/ListItemParser.java:69-131 | for "- item1", then "  - subitem", a blank line and "  text": a nested list, a kept blank line, then content of item1 at its content column |
| `ContinuationProperties.BlankLineIsSticky` | flexmark/src/main/java/com/vladsch/flexmark/internal/ListItemParser.java:16-73 | over any run of lines the blank-line flag ends set exactly when it started set or some line was blank |
| `ContinuationProperties.EmptyOnlyAfterBlank` | flexmark/src/main/java/com/vladsch/flexmark/internal/ListItemParser.java:62-73 | over any run of lines the item can end empty only if it started empty or some line was blank while it had no children |

## Left out

- `closeBlock` (flexmark/src/main/java/com/vladsch/flexmark/internal/ListItemParser.java:57-60) recomputes the item's character span from its content. Character-sequence handling is not part of this model.
- `getBlock` only returns the node; the node is the constant field `block`.
- `ListBlockParser.parseListMarker`, `ListBlockParser.getContentIndent` and the four `ListOptions` predicates are not part of this model. They are inputs, and the model assumes nothing about them.
- The default thresholds per family (a code indent of 4 for CommonMark; an item indent of 4 and a code indent of 8 for the others) are the defaults of the source's `ListOptions` class, which is not part of this model. Here the thresholds are free integers.
- The line number passed to `setItemHandled*` is not modelled. The signal always refers to the current line.
- Column arithmetic is on unbounded integers. The source's 32-bit `int` arithmetic cannot overflow for realistic column values.
- The document driver, the node tree and the children that other parsers attach to the item are not modelled. "Has a child" is an input on each line.
