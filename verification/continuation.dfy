/** The decision a list item makes on each line, stated as pure functions:
    one rule per emulation family, the common blank-line rule in front of
    them, and the update of the item's two flags. These are the
    specification that ListItemParser.TryContinue is proved against. */
module Continuation {
  import opened Lists
  import opened ParserStates

  /** How an open block continues on the current line. */
  datatype BlockContinue = None | AtColumn(column: int) | AtIndex(index: int)

  /** The "item handled" signal a list item reports to its list's parser. */
  datatype Signal =
    | NoSignal
    | ItemHandledLine
    | ItemHandledLineSkipActive
    | ItemHandledNewListLine
    | ItemHandledNewItemLine

  /** The only memory a list item carries from one line to the next. */
  datatype Flags = Flags(hadBlankLine: bool, isEmpty: bool)

  /** What one family rule decides for a non-blank line. */
  datatype Outcome = Outcome(cont: BlockContinue, signal: Signal)

  /** What the item decides for one line, and its flags afterwards. */
  datatype Decision = Decision(cont: BlockContinue, signal: Signal, flags: Flags)

  /** The marker scan each family asks for: CommonMark bounds it by its
      code indent, the other families pass -1. */
  function ScannedMarker(opts: ListOptions, state: ParserState): ListMarker
  {
    if opts.family == CommonMark then state.listMarkerAt(opts.codeIndent) else state.listMarkerAt(-1)
  }

  /** CommonMark: the current indent is the line indent, measured against
      the item's content indent. */
  function CommonMarkRule(opts: ListOptions, data: ListData, flags: Flags, state: ParserState, parent: ListParent): Outcome
  {
    var contentIndent := ContentIndent(data);
    var newColumn := state.column + contentIndent;
    var indent := state.indent;
    var m := ScannedMarker(opts, state);
    if indent >= contentIndent + opts.codeIndent then
      Outcome(AtColumn(newColumn), ItemHandledLine)
    else if indent >= contentIndent then
      if m.Marker? then
        if state.activeIsFirstParagraphInItem
           && (!CanInterrupt(opts, m.data) || !opts.canStartSubList(m.data.listBlock, m.data.isEmpty))
        then Outcome(AtColumn(newColumn), ItemHandledLineSkipActive)
        else Outcome(AtColumn(newColumn), ItemHandledNewListLine)
      else if flags.isEmpty then Outcome(None, ItemHandledLine)
      else Outcome(AtColumn(newColumn), ItemHandledLine)
    else if m.Marker? then
      if !flags.hadBlankLine && !CanInterrupt(opts, m.data) then
        Outcome(AtColumn(state.column + indent), ItemHandledLine)
      else if opts.startSubList(parent.block, m.data.listBlock) then
        Outcome(AtColumn(state.column + indent), ItemHandledNewListLine)
      else if opts.startNewList(parent.block, m.data.listBlock) then
        Outcome(None, ItemHandledNewListLine)
      else
        Outcome(None, ItemHandledNewItemLine)
    else
      Outcome(None, NoSignal)
  }

  /** MultiMarkdown's current indent: the line's column relative to the
      innermost list of the leading run of list parsers, less one item
      indent per nesting level below the first. */
  function MultiMarkdownIndent(opts: ListOptions, state: ParserState): int
  {
    var run := state.activeParsers[..LeadingRun(state.activeParsers)];
    var level := if ListCount(run) == 0 then 1 else ListCount(run);
    var listColumn := if LastList(run).Parent? then LastList(run).listData.markerColumn else state.column;
    var listIndent := if LastList(run).Parent? then LastList(run).listData.markerIndent else state.indent;
    state.column - listColumn + listIndent - opts.itemIndent * (level - 1)
  }

  /** MultiMarkdown: thresholds are absolute, applied to MultiMarkdownIndent. */
  function MultiMarkdownRule(opts: ListOptions, data: ListData, flags: Flags, state: ParserState, parent: ListParent): Outcome
  {
    var newColumn := state.column + ContentIndent(data);
    var indent := MultiMarkdownIndent(opts, state);
    var m := ScannedMarker(opts, state);
    if indent >= opts.codeIndent then
      Outcome(AtColumn(newColumn), ItemHandledLine)
    else if indent >= opts.itemIndent then
      Outcome(AtColumn(newColumn), if m.Marker? then ItemHandledNewListLine else ItemHandledLine)
    else if !flags.hadBlankLine && (m.NoMarker? || !CanInterrupt(opts, m.data)) then
      Outcome(AtColumn(state.column + indent), ItemHandledLine)
    else if m.Marker? && indent >= data.markerIndent then
      if opts.startSubList(parent.block, m.data.listBlock) then
        Outcome(AtColumn(state.column + indent), ItemHandledNewListLine)
      else
        Outcome(None, ItemHandledNewItemLine)
    else
      Outcome(None, NoSignal)
  }

  /** Kramdown: the line indent, measured against the owning list's
      content indent. */
  function KramdownRule(opts: ListOptions, data: ListData, flags: Flags, state: ParserState, parent: ListParent): Outcome
  {
    var newColumn := state.column + ContentIndent(data);
    var indent := state.indent;
    var listContentIndent := parent.contentIndent;
    var m := ScannedMarker(opts, state);
    if indent >= listContentIndent + opts.codeIndent then
      Outcome(AtColumn(newColumn), ItemHandledLine)
    else if indent >= listContentIndent + opts.itemIndent then
      if m.Marker? && parent.isInListItem then
        Outcome(None, NoSignal)
      else if !flags.hadBlankLine && (m.NoMarker? || !CanInterrupt(opts, m.data)) then
        Outcome(AtColumn(state.column + indent), ItemHandledLine)
      else if m.Marker? && indent >= data.markerIndent then
        if opts.startSubList(parent.block, m.data.listBlock) then
          Outcome(AtColumn(state.column + indent), ItemHandledNewListLine)
        else
          Outcome(None, ItemHandledNewItemLine)
      else
        Outcome(None, NoSignal)
    else if indent >= listContentIndent then
      Outcome(AtColumn(newColumn), if m.Marker? then ItemHandledNewListLine else ItemHandledLine)
    else
      Outcome(None, NoSignal)
  }

  /** Markdown: the line indent, measured against the owning list's marker indent. */
  function MarkdownRule(opts: ListOptions, data: ListData, flags: Flags, state: ParserState, parent: ListParent): Outcome
  {
    var newColumn := state.column + ContentIndent(data);
    var indent := state.indent;
    var listIndent := parent.listData.markerIndent;
    var m := ScannedMarker(opts, state);
    if indent >= listIndent + opts.codeIndent then
      if !flags.hadBlankLine then Outcome(AtColumn(state.column + indent), ItemHandledLine)
      else Outcome(AtColumn(state.column + listIndent + opts.itemIndent), ItemHandledLine)
    else if indent > listIndent then
      Outcome(AtColumn(newColumn), if m.Marker? then ItemHandledNewListLine else ItemHandledLine)
    else if indent == listIndent && m.Marker? && (flags.hadBlankLine || CanInterrupt(opts, m.data)) then
      Outcome(None, ItemHandledNewItemLine)
    else
      Outcome(None, NoSignal)
  }

  /** The rule of the configured family, for a non-blank line. */
  function FamilyRule(opts: ListOptions, data: ListData, flags: Flags, state: ParserState, parent: ListParent): Outcome
  {
    match opts.family
    case CommonMark => CommonMarkRule(opts, data, flags, state, parent)
    case MultiMarkdown => MultiMarkdownRule(opts, data, flags, state, parent)
    case Kramdown => KramdownRule(opts, data, flags, state, parent)
    case Markdown => MarkdownRule(opts, data, flags, state, parent)
  }

  /** The flags after a line: a blank line records that it was seen and
      whether the item still has no children; on other lines, accepting
      content at a column means the item is no longer empty. */
  function FlagsAfter(flags: Flags, state: ParserState, hasChildren: bool, cont: BlockContinue): Flags
  {
    if state.isBlank then Flags(true, !hasChildren)
    else Flags(flags.hadBlankLine, if cont.AtColumn? then false else flags.isEmpty)
  }

  /** One line's decision: a blank line is consumed at its next non-space
      position whatever the family; any other line goes to the family rule. */
  function Step(opts: ListOptions, data: ListData, flags: Flags, state: ParserState, parent: ListParent, hasChildren: bool): Decision
  {
    var o := if state.isBlank then Outcome(AtIndex(state.nextNonSpaceIndex), NoSignal)
             else FamilyRule(opts, data, flags, state, parent);
    Decision(o.cont, o.signal, FlagsAfter(flags, state, hasChildren, o.cont))
  }

  /** One line as the item sees it: the parser state, its list's parser,
      and whether the item's node has a child yet. */
  datatype LineInput = LineInput(state: ParserState, parent: ListParent, hasChildren: bool)

  /** The flags after the item has decided on each of `lines` in turn. */
  function Run(opts: ListOptions, data: ListData, flags: Flags, lines: seq<LineInput>): Flags
    decreases |lines|
  {
    if |lines| == 0 then flags
    else
      var d := Step(opts, data, flags, lines[0].state, lines[0].parent, lines[0].hasChildren);
      Run(opts, data, d.flags, lines[1..])
  }
}
