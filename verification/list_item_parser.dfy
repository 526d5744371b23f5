/** The parser of one open list item: its node, its two flags and the
    per-line continuation decision. */
module ListItemParsers {
  import opened Lists
  import opened ParserStates
  import opened Continuation

  datatype ItemKind = OrderedListItem | BulletListItem

  /** The list item node: its kind and its opening marker. Children are
      attached by the document driver, outside this model. */
  datatype ListItem = ListItem(kind: ItemKind, openingMarker: string)

  /** The node an item parser opens for a marker: ordered exactly when the
      marker is an ordinal, carrying the marker text verbatim. */
  function NewListItem(d: ListData): (item: ListItem)
    ensures item.kind == OrderedListItem <==> d.isNumberedList
    ensures item.kind == BulletListItem <==> !d.isNumberedList
    ensures item.openingMarker == d.listMarker
  {
    ListItem(if d.isNumberedList then OrderedListItem else BulletListItem, d.listMarker)
  }

  class ListItemParser {
    const options: ListOptions
    const listData: ListData
    const block: ListItem
    var hadBlankLine: bool
    var isEmpty: bool

    constructor (options: ListOptions, listData: ListData)
      ensures this.options == options && this.listData == listData
      ensures block.kind == (if listData.isNumberedList then OrderedListItem else BulletListItem)
      ensures block.openingMarker == listData.listMarker
      ensures !hadBlankLine && !isEmpty
    {
      this.options := options;
      this.listData := listData;
      this.block := NewListItem(listData);
      hadBlankLine, isEmpty := false, false;
    }

    /** The item's two flags as one value. */
    function CurrentFlags(): Flags
      reads this
    {
      Flags(hadBlankLine, isEmpty)
    }

    /** A list item may hold any block. */
    predicate IsContainer()
      ensures IsContainer()
    {
      true
    }

    /** A list item accepts a child of any kind. */
    predicate CanContain(child: object)
      ensures CanContain(child)
    {
      true
    }

    /** A trailing blank line stays with this item unless the item is
        still childless and was not the last parser to match. */
    predicate IsPropagatingLastBlankLine(lastMatched: object, hasChildren: bool)
      ensures IsPropagatingLastBlankLine(lastMatched, hasChildren) <==> hasChildren || lastMatched == this
    {
      !(!hasChildren && this != lastMatched)
    }

    /** Accept the line at `newColumn`; the item now has content. */
    method ContinueAtColumn(newColumn: int) returns (c: BlockContinue)
      modifies this
      ensures c == AtColumn(newColumn)
      ensures !isEmpty && hadBlankLine == old(hadBlankLine)
    {
      isEmpty := false;
      c := AtColumn(newColumn);
    }

    /** Decide how this item continues on the current line, update the
        flags, and report the signal recorded on the owning list's parser. */
    method TryContinue(state: ParserState, parent: ListParent, hasChildren: bool) returns (c: BlockContinue, signal: Signal)
      modifies this
      ensures Decision(c, signal, CurrentFlags()) == Step(options, listData, old(CurrentFlags()), state, parent, hasChildren)
      ensures state.isBlank ==> c == AtIndex(state.nextNonSpaceIndex) && signal == NoSignal && isEmpty == !hasChildren
      ensures hadBlankLine == (old(hadBlankLine) || state.isBlank)
      ensures c.AtColumn? ==> !isEmpty && signal != NoSignal
      ensures c.None? ==> isEmpty == old(isEmpty)
    {
      c, signal := None, NoSignal;
      if state.isBlank {
        isEmpty := !hasChildren;
        hadBlankLine := true;
        c := AtIndex(state.nextNonSpaceIndex);
        return;
      }

      var newColumn := state.column + ContentIndent(listData);
      if options.family == CommonMark {
        var currentIndent := state.indent;
        if currentIndent >= ContentIndent(listData) + options.codeIndent {
          signal := ItemHandledLine;
          c := ContinueAtColumn(newColumn);
          return;
        }
        var marker := state.listMarkerAt(options.codeIndent);
        if currentIndent >= ContentIndent(listData) {
          if marker.Marker? {
            if state.activeIsFirstParagraphInItem
               && (!CanInterrupt(options, marker.data) || !options.canStartSubList(marker.data.listBlock, marker.data.isEmpty)) {
              signal := ItemHandledLineSkipActive;
            } else {
              signal := ItemHandledNewListLine;
            }
            c := ContinueAtColumn(newColumn);
          } else if isEmpty {
            signal := ItemHandledLine;
          } else {
            signal := ItemHandledLine;
            c := ContinueAtColumn(newColumn);
          }
        } else if marker.Marker? {
          if !hadBlankLine && !CanInterrupt(options, marker.data) {
            signal := ItemHandledLine;
            c := ContinueAtColumn(state.column + currentIndent);
          } else if options.startSubList(parent.block, marker.data.listBlock) {
            signal := ItemHandledNewListLine;
            c := ContinueAtColumn(state.column + currentIndent);
          } else if options.startNewList(parent.block, marker.data.listBlock) {
            signal := ItemHandledNewListLine;
          } else {
            signal := ItemHandledNewItemLine;
          }
        }
      } else if options.family == MultiMarkdown {
        var firstParent, listLevel := FindFirstParent(state.activeParsers);
        var firstParentListColumn := if firstParent.NoParent? then state.column else firstParent.listData.markerColumn;
        var firstParentListIndent := if firstParent.NoParent? then state.indent else firstParent.listData.markerIndent;
        if listLevel == 0 {
          listLevel := 1;
        }
        var currentIndent := state.column - firstParentListColumn + firstParentListIndent - options.itemIndent * (listLevel - 1);

        if currentIndent >= options.codeIndent {
          signal := ItemHandledLine;
          c := ContinueAtColumn(newColumn);
          return;
        }
        var marker := state.listMarkerAt(-1);
        if currentIndent >= options.itemIndent {
          signal := if marker.Marker? then ItemHandledNewListLine else ItemHandledLine;
          c := ContinueAtColumn(newColumn);
        } else if !hadBlankLine && (marker.NoMarker? || !CanInterrupt(options, marker.data)) {
          signal := ItemHandledLine;
          c := ContinueAtColumn(state.column + currentIndent);
        } else if marker.Marker? && currentIndent >= listData.markerIndent {
          if options.startSubList(parent.block, marker.data.listBlock) {
            signal := ItemHandledNewListLine;
            c := ContinueAtColumn(state.column + currentIndent);
          } else {
            signal := ItemHandledNewItemLine;
          }
        }
      } else if options.family == Kramdown {
        var currentIndent := state.indent;
        var listContentIndent := parent.contentIndent;
        if currentIndent >= listContentIndent + options.codeIndent {
          signal := ItemHandledLine;
          c := ContinueAtColumn(newColumn);
          return;
        }
        var marker := state.listMarkerAt(-1);
        if currentIndent >= listContentIndent + options.itemIndent {
          if marker.NoMarker? || !parent.isInListItem {
            if !hadBlankLine && (marker.NoMarker? || !CanInterrupt(options, marker.data)) {
              signal := ItemHandledLine;
              c := ContinueAtColumn(state.column + currentIndent);
            } else if marker.Marker? && currentIndent >= listData.markerIndent {
              if options.startSubList(parent.block, marker.data.listBlock) {
                signal := ItemHandledNewListLine;
                c := ContinueAtColumn(state.column + currentIndent);
              } else {
                signal := ItemHandledNewItemLine;
              }
            }
          }
        } else if currentIndent >= listContentIndent {
          signal := if marker.Marker? then ItemHandledNewListLine else ItemHandledLine;
          c := ContinueAtColumn(newColumn);
        }
      } else {
        var currentIndent := state.indent;
        var listIndent := parent.listData.markerIndent;
        if currentIndent >= listIndent + options.codeIndent {
          signal := ItemHandledLine;
          if !hadBlankLine {
            c := ContinueAtColumn(state.column + currentIndent);
          } else {
            c := ContinueAtColumn(state.column + listIndent + options.itemIndent);
          }
          return;
        }
        var marker := state.listMarkerAt(-1);
        if currentIndent > listIndent {
          signal := if marker.Marker? then ItemHandledNewListLine else ItemHandledLine;
          c := ContinueAtColumn(newColumn);
        } else if currentIndent == listIndent && marker.Marker? {
          if hadBlankLine || CanInterrupt(options, marker.data) {
            signal := ItemHandledNewItemLine;
          }
        }
      }
    }
  }
}
