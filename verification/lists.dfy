/** The values a list and its items share: the list node a marker scan
    creates, the marker geometry of one list (its ListData), the
    configuration of a document's lists, and what a list item can see of
    the parser of the list that owns it. */
module Lists {

  /** A list block node as created by a marker scan. The continuation
      rules never look inside it; they only hand it to the configured
      predicates of ListOptions. */
  datatype ListBlock = BulletList(marker: string) | OrderedList(marker: string)

  /** Marker geometry of one list, as produced by the marker scanner. */
  datatype ListData = ListData(
    markerColumn: nat,     // column at which the marker begins
    markerIndent: nat,     // indentation at which the marker begins
    listMarker: string,    // the literal marker text, such as "-" or "1."
    contentOffset: nat,    // whitespace between the marker and the content
    isNumberedList: bool,  // ordinal rather than bullet marker
    isEmpty: bool,         // nothing but whitespace follows the marker
    listBlock: ListBlock)  // the list node the scan created for this marker

  /** Result of scanning a line for a list marker. */
  datatype ListMarker = NoMarker | Marker(data: ListData)

  /** The four dialect rule sets. */
  datatype EmulationFamily = CommonMark | MultiMarkdown | Kramdown | Markdown

  /** The configuration of lists for one document: the family, its two
      thresholds and the four marker-compatibility predicates, which the
      engine consults but does not define. */
  datatype ListOptions = ListOptions(
    family: EmulationFamily,
    codeIndent: int,
    itemIndent: int,
    canInterrupt: (ListBlock, bool, bool) -> bool,
    canStartSubList: (ListBlock, bool) -> bool,
    startSubList: (ListBlock, ListBlock) -> bool,
    startNewList: (ListBlock, ListBlock) -> bool)

  /** What a list item sees of the parser of the list that owns it. */
  datatype ListParent = ListParent(
    listData: ListData,   // the geometry the list was opened with
    contentIndent: int,   // the list's own content indent
    block: ListBlock,     // the list node
    isInListItem: bool)   // the list is itself nested in a list item

  /** The marker column plus the content offset; unlike ContentIndent it
      does not add the marker's length. */
  function ContentColumn(d: ListData): (r: int)
    ensures r >= d.markerColumn
    ensures r - d.markerColumn == d.contentOffset
  {
    d.markerColumn + d.contentOffset
  }

  /** The indentation at which an item's content starts: past the marker
      and the whitespace after it, measured from the marker's indent. It
      exceeds the marker indent by the marker's length more than
      ContentColumn exceeds the marker column. */
  function ContentIndent(d: ListData): (r: int)
    ensures r >= d.markerIndent + |d.listMarker|
    ensures r - d.markerIndent == ContentColumn(d) - d.markerColumn + |d.listMarker|
  {
    d.markerIndent + |d.listMarker| + d.contentOffset
  }

  /** Whether a newly scanned marker may interrupt a paragraph; every call
      site in the engine asks with the same third argument. */
  predicate CanInterrupt(opts: ListOptions, m: ListData)
  {
    opts.canInterrupt(m.listBlock, m.isEmpty, true)
  }
}
