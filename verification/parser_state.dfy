/** The per-line parser state a list item consults, and the scan of the
    active parser stack that the MultiMarkdown rules need. */
module ParserStates {
  import opened Lists

  /** One entry of the stack of active block parsers, outermost first. */
  datatype ActiveParser = ActiveList(listData: ListData) | ActiveListItem | ActiveOther

  /** The parser state for the line being processed. `listMarkerAt` is the
      marker scan of the current line, given the code-indent threshold the
      caller passes to it. */
  datatype ParserState = ParserState(
    isBlank: bool,
    indent: nat,
    column: nat,
    nextNonSpaceIndex: nat,
    activeParsers: seq<ActiveParser>,
    activeIsFirstParagraphInItem: bool,  // active parser is a paragraph that is the first child of a list item
    listMarkerAt: int -> ListMarker)

  /** The innermost list parser of the leading run, if there is one. */
  datatype FirstParent = NoParent | Parent(listData: ListData)

  /** List and list-item parsers belong to the leading run; anything else ends it. */
  predicate InListRun(p: ActiveParser)
  {
    !p.ActiveOther?
  }

  /** Length of the leading run of list and list-item parsers. */
  function LeadingRun(ps: seq<ActiveParser>): (n: nat)
    ensures n <= |ps|
    ensures forall j :: 0 <= j < n ==> InListRun(ps[j])
    ensures n < |ps| ==> !InListRun(ps[n])
  {
    if |ps| == 0 || !InListRun(ps[0]) then 0 else 1 + LeadingRun(ps[1..])
  }

  /** Number of list parsers in `ps`. */
  function ListCount(ps: seq<ActiveParser>): (r: nat)
    ensures r <= |ps|
  {
    if |ps| == 0 then 0
    else ListCount(ps[..|ps| - 1]) + (if ps[|ps| - 1].ActiveList? then 1 else 0)
  }

  /** The last list parser in `ps`. */
  function LastList(ps: seq<ActiveParser>): FirstParent
  {
    if |ps| == 0 then NoParent
    else if ps[|ps| - 1].ActiveList? then Parent(ps[|ps| - 1].listData)
    else LastList(ps[..|ps| - 1])
  }

  /** A list level of zero and a missing first parent are the same
      situation: both mean the leading run holds no list parser. */
  lemma {:induction false} NoListLevelIffNoParent(ps: seq<ActiveParser>)
    ensures ListCount(ps) == 0 <==> LastList(ps) == NoParent
  {
    if |ps| > 0 && !ps[|ps| - 1].ActiveList? {
      NoListLevelIffNoParent(ps[..|ps| - 1]);
    }
  }

  /** Walks the active parsers outermost first while they are list or
      list-item parsers, remembering the last list parser and counting the
      list parsers seen. */
  method FindFirstParent(ps: seq<ActiveParser>) returns (firstParent: FirstParent, listLevel: nat)
    ensures firstParent == LastList(ps[..LeadingRun(ps)])
    ensures listLevel == ListCount(ps[..LeadingRun(ps)])
  {
    firstParent, listLevel := NoParent, 0;
    var i := 0;
    while i < |ps|
      invariant i <= LeadingRun(ps)
      invariant firstParent == LastList(ps[..i])
      invariant listLevel == ListCount(ps[..i])
    {
      if ps[i].ActiveList? {
        firstParent := Parent(ps[i].listData);
        listLevel := listLevel + 1;
      } else if !ps[i].ActiveListItem? {
        break;
      }
      assert ps[..i + 1][..i] == ps[..i];
      i := i + 1;
    }
  }
}
