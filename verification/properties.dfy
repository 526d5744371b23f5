/** Properties of the per-line decision of a list item: what every family
    does with a blank line, how the two flags evolve, how the signal and
    the continuation agree, and the family-specific threshold rules. */
module ContinuationProperties {
  import opened Lists
  import opened ParserStates
  import opened Continuation

  /** A blank line is handled the same way by every family: consumed at
      the next non-space index, no signal, the blank line recorded and the
      item's emptiness taken from whether it has children. */
  lemma BlankLine(opts: ListOptions, data: ListData, flags: Flags, state: ParserState, parent: ListParent, hasChildren: bool)
    requires state.isBlank
    ensures Step(opts, data, flags, state, parent, hasChildren)
         == Decision(AtIndex(state.nextNonSpaceIndex), NoSignal, Flags(true, !hasChildren))
  {
  }

  /** On a line that is not blank, accepting content at a column clears
      the empty flag, no match leaves both flags as they were, and the
      blank-line flag is never cleared. */
  lemma FlagUpdates(opts: ListOptions, data: ListData, flags: Flags, state: ParserState, parent: ListParent, hasChildren: bool)
    ensures var d := Step(opts, data, flags, state, parent, hasChildren);
      && (d.cont.AtColumn? ==> !d.flags.isEmpty)
      && (d.cont.None? ==> d.flags == flags)
      && (d.flags.hadBlankLine <==> flags.hadBlankLine || state.isBlank)
  {
  }

  /** The signal and the continuation agree in every family: a position
      in the line is returned exactly for blank lines; on any other line an
      item that reports nothing stops matching, an item that keeps the line
      always reports, a new sibling item always closes this one, and a lazy
      paragraph continuation always keeps the line. */
  lemma SignalAgreesWithContinuation(opts: ListOptions, data: ListData, flags: Flags, state: ParserState, parent: ListParent, hasChildren: bool)
    ensures var d := Step(opts, data, flags, state, parent, hasChildren);
      && (d.cont.AtIndex? <==> state.isBlank)
      && (!state.isBlank && d.signal == NoSignal ==> d.cont == None)
      && (d.cont.AtColumn? ==> d.signal != NoSignal)
      && (d.signal == ItemHandledNewItemLine ==> d.cont == None)
      && (d.signal == ItemHandledLineSkipActive ==> d.cont.AtColumn?)
  {
  }

  /** CommonMark: at or past the content indent plus the code indent the
      line is the item's indented code. */
  lemma CommonMarkIndentedCode(opts: ListOptions, data: ListData, flags: Flags, state: ParserState, parent: ListParent, hasChildren: bool)
    requires opts.family == CommonMark && !state.isBlank
    requires state.indent >= ContentIndent(data) + opts.codeIndent
    ensures var d := Step(opts, data, flags, state, parent, hasChildren);
      d.cont == AtColumn(state.column + ContentIndent(data)) && d.signal == ItemHandledLine
  {
  }

  /** CommonMark: between the content indent and the code threshold, a line
      without a marker is child content of a non-empty item, and is refused
      (still signalled as handled) by an empty one. */
  lemma CommonMarkChildContent(opts: ListOptions, data: ListData, flags: Flags, state: ParserState, parent: ListParent, hasChildren: bool)
    requires opts.family == CommonMark && !state.isBlank
    requires ContentIndent(data) <= state.indent < ContentIndent(data) + opts.codeIndent
    requires state.listMarkerAt(opts.codeIndent).NoMarker?
    ensures var d := Step(opts, data, flags, state, parent, hasChildren);
      && d.signal == ItemHandledLine
      && (d.cont == None <==> flags.isEmpty)
      && (!flags.isEmpty ==> d.cont == AtColumn(state.column + ContentIndent(data)))
  {
  }

  /** CommonMark: between the content indent and the code threshold, a line
      with a marker always stays in the item, at its content column: it is
      a lazy continuation of a list item's first paragraph when that marker may
      not interrupt it or start a sub-list there, and a nested list
      otherwise. Such a line never starts a sibling item. */
  lemma CommonMarkMarkerInContent(opts: ListOptions, data: ListData, flags: Flags, state: ParserState, parent: ListParent, hasChildren: bool)
    requires opts.family == CommonMark && !state.isBlank
    requires ContentIndent(data) <= state.indent < ContentIndent(data) + opts.codeIndent
    requires state.listMarkerAt(opts.codeIndent).Marker?
    ensures var d := Step(opts, data, flags, state, parent, hasChildren);
      var m := state.listMarkerAt(opts.codeIndent).data;
      && d.cont == AtColumn(state.column + ContentIndent(data))
      && (d.signal == ItemHandledLineSkipActive <==>
            state.activeIsFirstParagraphInItem
            && (!CanInterrupt(opts, m) || !opts.canStartSubList(m.listBlock, m.isEmpty)))
      && (d.signal != ItemHandledLineSkipActive ==> d.signal == ItemHandledNewListLine)
  {
  }

  /** CommonMark: below the content indent a marker is, in this order, a
      lazy continuation (no blank line yet and it may not interrupt), a
      sub-list, the start of a new list, or the next item of this list;
      without a marker the item stops matching. */
  lemma CommonMarkBelowContent(opts: ListOptions, data: ListData, flags: Flags, state: ParserState, parent: ListParent, hasChildren: bool)
    requires opts.family == CommonMark && !state.isBlank
    requires state.indent < ContentIndent(data)
    requires state.indent < ContentIndent(data) + opts.codeIndent
    ensures var d := Step(opts, data, flags, state, parent, hasChildren);
      var scan := state.listMarkerAt(opts.codeIndent);
      var lazy := AtColumn(state.column + state.indent);
      if scan.NoMarker? then
        d.cont == None && d.signal == NoSignal
      else if !flags.hadBlankLine && !CanInterrupt(opts, scan.data) then
        d.cont == lazy && d.signal == ItemHandledLine
      else if opts.startSubList(parent.block, scan.data.listBlock) then
        d.cont == lazy && d.signal == ItemHandledNewListLine
      else if opts.startNewList(parent.block, scan.data.listBlock) then
        d.cont == None && d.signal == ItemHandledNewListLine
      else
        d.cont == None && d.signal == ItemHandledNewItemLine
  {
  }

  /** MultiMarkdown: with no list parser leading the active parsers, the
      current indent is the plain line indent. */
  lemma MultiMarkdownIndentOutsideList(opts: ListOptions, state: ParserState)
    requires LastList(state.activeParsers[..LeadingRun(state.activeParsers)]) == NoParent
    ensures MultiMarkdownIndent(opts, state) == state.indent
  {
    NoListLevelIffNoParent(state.activeParsers[..LeadingRun(state.activeParsers)]);
  }

  /** MultiMarkdown: inside lists, the current indent is the column relative
      to the innermost leading list's marker, shifted by that marker's
      indent, less one item indent for each leading list beyond the first. */
  lemma MultiMarkdownIndentInList(opts: ListOptions, state: ParserState)
    requires LastList(state.activeParsers[..LeadingRun(state.activeParsers)]).Parent?
    ensures var run := state.activeParsers[..LeadingRun(state.activeParsers)];
      var fp := LastList(run).listData;
      && ListCount(run) >= 1
      && MultiMarkdownIndent(opts, state)
           == state.column - fp.markerColumn + fp.markerIndent - opts.itemIndent * (ListCount(run) - 1)
  {
    NoListLevelIffNoParent(state.activeParsers[..LeadingRun(state.activeParsers)]);
  }

  /** MultiMarkdown: at or past the code indent the line is indented code;
      at or past the item indent it is a nested list when it has a marker
      and child content otherwise; both continue at the content column. */
  lemma MultiMarkdownThresholds(opts: ListOptions, data: ListData, flags: Flags, state: ParserState, parent: ListParent, hasChildren: bool)
    requires opts.family == MultiMarkdown && !state.isBlank
    requires MultiMarkdownIndent(opts, state) >= opts.itemIndent || MultiMarkdownIndent(opts, state) >= opts.codeIndent
    ensures var d := Step(opts, data, flags, state, parent, hasChildren);
      var indent := MultiMarkdownIndent(opts, state);
      && d.cont == AtColumn(state.column + ContentIndent(data))
      && (indent >= opts.codeIndent ==> d.signal == ItemHandledLine)
      && (indent < opts.codeIndent ==>
            d.signal == (if state.listMarkerAt(-1).Marker? then ItemHandledNewListLine else ItemHandledLine))
  {
  }

  /** MultiMarkdown: below the item indent, before any blank line, a line
      the marker cannot interrupt with is a lazy continuation; otherwise a
      marker at or past the item's own marker indent is a sub-list or the
      next item; anything else stops matching without a signal. */
  lemma MultiMarkdownBelowItemIndent(opts: ListOptions, data: ListData, flags: Flags, state: ParserState, parent: ListParent, hasChildren: bool)
    requires opts.family == MultiMarkdown && !state.isBlank
    requires MultiMarkdownIndent(opts, state) < opts.itemIndent
    requires MultiMarkdownIndent(opts, state) < opts.codeIndent
    ensures var d := Step(opts, data, flags, state, parent, hasChildren);
      var indent := MultiMarkdownIndent(opts, state);
      var scan := state.listMarkerAt(-1);
      if !flags.hadBlankLine && (scan.NoMarker? || !CanInterrupt(opts, scan.data)) then
        d.cont == AtColumn(state.column + indent) && d.signal == ItemHandledLine
      else if scan.Marker? && indent >= data.markerIndent then
        if opts.startSubList(parent.block, scan.data.listBlock) then
          d.cont == AtColumn(state.column + indent) && d.signal == ItemHandledNewListLine
        else
          d.cont == None && d.signal == ItemHandledNewItemLine
      else
        d.cont == None && d.signal == NoSignal
  {
  }

  /** Kramdown: at or past the list's content indent plus the code indent
      the line is indented code; between the list's content indent and that
      plus the item indent it is a nested list or child content, at the
      item's content column. */
  lemma KramdownContentBands(opts: ListOptions, data: ListData, flags: Flags, state: ParserState, parent: ListParent, hasChildren: bool)
    requires opts.family == Kramdown && !state.isBlank
    requires state.indent >= parent.contentIndent + opts.codeIndent
          || parent.contentIndent <= state.indent < parent.contentIndent + opts.itemIndent
    ensures var d := Step(opts, data, flags, state, parent, hasChildren);
      && d.cont == AtColumn(state.column + ContentIndent(data))
      && (state.indent >= parent.contentIndent + opts.codeIndent ==> d.signal == ItemHandledLine)
      && (state.indent < parent.contentIndent + opts.codeIndent ==>
            d.signal == (if state.listMarkerAt(-1).Marker? then ItemHandledNewListLine else ItemHandledLine))
  {
  }

  /** Kramdown: between the list's content indent plus the item indent and
      the code threshold, a marker line is left to the enclosing item when
      this list is nested in one; otherwise, before any blank line, a line
      the marker cannot interrupt with is a lazy continuation, and a marker
      at or past the item's marker indent is a sub-list or the next item. Below the
      list's content indent the item stops matching. */
  lemma KramdownOuterBands(opts: ListOptions, data: ListData, flags: Flags, state: ParserState, parent: ListParent, hasChildren: bool)
    requires opts.family == Kramdown && !state.isBlank
    requires state.indent < parent.contentIndent + opts.codeIndent
    requires state.indent >= parent.contentIndent + opts.itemIndent || state.indent < parent.contentIndent
    ensures var d := Step(opts, data, flags, state, parent, hasChildren);
      var scan := state.listMarkerAt(-1);
      if state.indent < parent.contentIndent + opts.itemIndent || (scan.Marker? && parent.isInListItem) then
        d.cont == None && d.signal == NoSignal
      else if !flags.hadBlankLine && (scan.NoMarker? || !CanInterrupt(opts, scan.data)) then
        d.cont == AtColumn(state.column + state.indent) && d.signal == ItemHandledLine
      else if scan.Marker? && state.indent >= data.markerIndent then
        if opts.startSubList(parent.block, scan.data.listBlock) then
          d.cont == AtColumn(state.column + state.indent) && d.signal == ItemHandledNewListLine
        else
          d.cont == None && d.signal == ItemHandledNewItemLine
      else
        d.cont == None && d.signal == NoSignal
  {
  }

  /** Markdown: at or past the list's marker indent plus the code indent, the
      line is a lazy continuation at its own indent until a blank line has
      been seen, and indented code one item indent past the list's marker
      afterwards. */
  lemma MarkdownIndentedCode(opts: ListOptions, data: ListData, flags: Flags, state: ParserState, parent: ListParent, hasChildren: bool)
    requires opts.family == Markdown && !state.isBlank
    requires state.indent >= parent.listData.markerIndent + opts.codeIndent
    ensures var d := Step(opts, data, flags, state, parent, hasChildren);
      && d.signal == ItemHandledLine
      && d.cont == AtColumn(if flags.hadBlankLine then state.column + parent.listData.markerIndent + opts.itemIndent
                            else state.column + state.indent)
  {
  }

  /** Markdown: below the code threshold, a line indented past the list's
      marker is a nested list or child content; a marker exactly at the
      list's marker indent starts the next item when a blank line has been
      seen or the marker may interrupt; every other line stops matching. */
  lemma MarkdownBelowCode(opts: ListOptions, data: ListData, flags: Flags, state: ParserState, parent: ListParent, hasChildren: bool)
    requires opts.family == Markdown && !state.isBlank
    requires state.indent < parent.listData.markerIndent + opts.codeIndent
    ensures var d := Step(opts, data, flags, state, parent, hasChildren);
      var scan := state.listMarkerAt(-1);
      var listIndent := parent.listData.markerIndent;
      if state.indent > listIndent then
        d.cont == AtColumn(state.column + ContentIndent(data))
        && d.signal == (if scan.Marker? then ItemHandledNewListLine else ItemHandledLine)
      else if state.indent == listIndent && scan.Marker? && (flags.hadBlankLine || CanInterrupt(opts, scan.data)) then
        d.cont == None && d.signal == ItemHandledNewItemLine
      else
        d.cont == None && d.signal == NoSignal
  {
  }

  /** CommonMark, for the item opened by "- item1": the line "  - subitem"
      opens a list nested in it, a following blank line keeps it open, and
      the line "  text" after that is its own content, at its content column. */
  lemma CommonMarkNestedThenText(opts: ListOptions, sub: ListData)
    requires opts.family == CommonMark && opts.codeIndent == 4
    requires CanInterrupt(opts, sub) && opts.canStartSubList(sub.listBlock, sub.isEmpty)
    ensures var item1 := ListData(0, 0, "-", 1, false, false, BulletList("-"));
      var parent := ListParent(item1, 2, BulletList("-"), false);
      var subLine := ParserState(false, 2, 0, 2, [], true, _ => Marker(sub));
      var blank := ParserState(true, 0, 0, 0, [], false, _ => NoMarker);
      var text := ParserState(false, 2, 0, 2, [], false, _ => NoMarker);
      var d1 := Step(opts, item1, Flags(false, false), subLine, parent, true);
      var d2 := Step(opts, item1, d1.flags, blank, parent, true);
      var d3 := Step(opts, item1, d2.flags, text, parent, true);
      && d1 == Decision(AtColumn(2), ItemHandledNewListLine, Flags(false, false))
      && d2 == Decision(AtIndex(0), NoSignal, Flags(true, false))
      && d3 == Decision(AtColumn(2), ItemHandledLine, Flags(true, false))
  {
  }

  /** Over any sequence of lines, the blank-line flag ends up set exactly
      when it was set before or one of the lines was blank. */
  lemma {:induction false} BlankLineIsSticky(opts: ListOptions, data: ListData, flags: Flags, lines: seq<LineInput>)
    ensures Run(opts, data, flags, lines).hadBlankLine
        <==> flags.hadBlankLine || exists i :: 0 <= i < |lines| && lines[i].state.isBlank
    decreases |lines|
  {
    if |lines| > 0 {
      var d := Step(opts, data, flags, lines[0].state, lines[0].parent, lines[0].hasChildren);
      FlagUpdates(opts, data, flags, lines[0].state, lines[0].parent, lines[0].hasChildren);
      BlankLineIsSticky(opts, data, d.flags, lines[1..]);
      assert forall i :: 0 < i < |lines| ==> lines[i] == lines[1..][i - 1];
    }
  }

  /** Over any sequence of lines, an item can only end up empty if it was
      empty before or one of the lines was blank while it had no children. */
  lemma {:induction false} EmptyOnlyAfterBlank(opts: ListOptions, data: ListData, flags: Flags, lines: seq<LineInput>)
    requires Run(opts, data, flags, lines).isEmpty
    ensures flags.isEmpty || exists i :: 0 <= i < |lines| && lines[i].state.isBlank && !lines[i].hasChildren
    decreases |lines|
  {
    if |lines| > 0 {
      var d := Step(opts, data, flags, lines[0].state, lines[0].parent, lines[0].hasChildren);
      EmptyOnlyAfterBlank(opts, data, d.flags, lines[1..]);
      if !flags.isEmpty && !d.flags.isEmpty {
        var i :| 0 <= i < |lines[1..]| && lines[1..][i].state.isBlank && !lines[1..][i].hasChildren;
        assert lines[i + 1] == lines[1..][i];
      }
    }
  }
}
