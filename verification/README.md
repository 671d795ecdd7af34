# ACT core: identifiers, connections and user-defined types

This project is a Dafny model of the core of the ACT hardware-description
compiler (C++). It covers:

- **Identifiers** (`ActId`): a linked chain of segments. Each segment has a
  name and an optional array subscript. The model covers printing into a
  fixed-size buffer, parsing from a C string, cloning, comparison, stripping
  the last subscript, and the namespace and dynamic-dereference checks.
- **The connection graph** (`act_connection`): a union-find forest of nets.
  Each net's aliases are linked in a ring, and a lazily allocated tree of
  sub-connections runs from each instance down to its array elements and
  ports. The model covers `rawValueIdx`, the import of the ports'
  connections when an instance is first touched, `Canonical`,
  `rootCanonical`, `isNonLocal` and `validateDeref`. Both copies of the
  identifier module are modelled: the current one (`act/lang/id.cc`) and
  the older one (`act/id.cc`), which rebuilds the canonical name of a
  port's rest and evaluates identifiers (`ActId::Eval`).
- **User-defined types** (`UserDef`): the parameter, port and macro tables,
  `SetParent`'s inherited-parameter table, and the memoised `Expand`. It
  builds the canonical instance name `name<...>`, detects recursive
  construction and bounds the nesting depth.
- **The namespace, instance, type, process and connection iterators**
  (`iter.cc`), the type-code macros and channel method numbering
  (`types.h`), and the `RangeTable`, contact and spacing helpers of the
  technology file (`tech.h`).

The arena is the connection graph: a node is an index into sequences that
the methods extend and update. The ghost sequences `root` and `dist`
record each node's primary and its distance from it. The union-find
operations are proved against them.

All fatal errors and assertions of the source are results. A fatal error
(`Fatal`) is a user-visible `fatal_error`, `exit (1)` or unmet lookup. An
assertion failure or NULL dereference the source assumes away is
`Internal`.

## Model

| member | source | states |
|---|---|---|
| Arrays.Array.Clone | act/lang/id.cc:66-71 | the copy of a subscript is a fresh object with the same dimensions |
| Arrays.Offset | act/lang/id.cc:1381 | the row-major position of an index in a declared box: -1 exactly when the index is outside the box, otherwise a position below the box's size |
| Arrays.RowMajorBounds | act/lang/id.cc:1381-1384 | an index inside the box has a row-major position within the box's size, so `getsubconn` is asked for a child that exists |
| Arrays.UnOffset | act/id.cc:1074 | the index of a position has one coordinate per declared dimension |
| Arrays.OffsetOfUnOffset | act/id.cc:1074 | every position below the box's size is the offset of the index `unOffset` rebuilds from it, and that index lies in the box |
| Arrays.UnOffsetOfOffset | act/id.cc:1148 | `unOffset` inverts `Offset` on every index inside the box |
| Arrays.ElementOffset | act/lang/id.cc:1377-1382 | a subscript has an element position exactly when it is all constant indices of the declared rank inside the box; the position then decodes back to those indices |
| Arrays.ConstIndicesOfConstDims | act/id.cc:1074-1076 | a rebuilt subscript reads back as the indices it was built from |
| Arrays.ElementOffsetOfUnOffset | act/id.cc:1074-1076 | the subscript rebuilt from a node's offset names that same node |
| Arrays.SubOffset | act/id.cc:245-247 | the position of a subscript's first element: in the box when not -1, never -1 for a valid subrange, and equal to the element position for a dereference |
| Arrays.SubBoxInside | act/id.cc:194 | every element of a validated subrange lies inside the declared box |
| CBuf.Emit | act/lang/id.cc:572-573 | `snprintf` into the rest of the buffer writes the longest prefix of the text that fits and keeps the buffer a NUL-terminated image of what was printed |
| CBuf.Truncate | act/lang/id.cc:549-555 | truncation keeps a prefix of the text of the requested length, or the whole text when it is shorter |
| CBuf.PrintStep | act/lang/id.cc:549-555 | one `snprintf` plus `PRINT_STEP`: either the buffer now holds the text so far, or it stopped full holding the truncation of the whole output |
| CBuf.CString | act/lang/id.cc:546 | reading the buffer as a C string yields the characters before its first NUL |
| CBuf.PrintedCStr | act/lang/id.cc:546 | a buffer holding a printed, NUL-free text reads back as exactly that text |
| Conn.MergeClasses | act/lang/id.cc:708 | after a union, two nodes share a net exactly when they did before or both belonged to one of the two merged nets |
| Conn.RingSwap | act/lang/id.cc:708 | swapping the ring successors of two aliases of one net keeps every net's ring closed |
| Conn.AddNodeKeeps | act/lang/id.cc:850 | appending a fresh node that is its own net keeps the forest, ring, tree, child-array and slot invariants |
| Conn.Net.Primary | act/lang/id.cc:1092 | `primary()` returns the root of the node's net, which is a primary node |
| Conn.Net.Top | act/lang/id.cc:587-591 | climbing the structural parents ends at a top node not above the start, and that node has a value slot |
| Conn.Net.VxOf | act/lang/id.cc:1388-1398 | the slot chosen for a node is a real slot, and it is the node's own slot, else its parent's, else its grandparent's (`Conn.SlotIn`) |
| Conn.SlotInKept | act/lang/id.cc:1388-1398 | the slot chosen for a node stays the same when nodes are added below the structure |
| Conn.RebindTrans | act/lang/id.cc:1439-1443 | steps that keep every bound node's slot, then steps that rebind only one node, together rebind only that node |
| Conn.RebindAfter | act/lang/id.cc:1443 | binding a port node after steps that kept every bound slot rebinds only that node |
| Conn.Net.StackIdx | act/lang/id.cc:583-597 | returns the offsets from the instance's top node down to the node, and that top node |
| Conn.Net.AddNode | act/lang/id.cc:850-852 | allocates a node that is its own single-member net with the given parent, offset and slot; every other node is unchanged |
| Conn.Net.SetVx | act/lang/id.cc:629-631 | binds one node's slot and changes nothing else |
| Conn.Net.SetSlot | act/lang/id.cc:848-853 | marks one slot touched with its root connection and changes nothing else |
| Conn.Net.GetSubconn | act/lang/id.cc:1384 | `getsubconn(idx, sz)` fails exactly for an index outside the child array; otherwise it returns the existing child at that position, or a fresh one, with this node as parent and `idx` as offset |
| Conn.Net.MkRawConnection | act/lang/id.cc:708 | `_act_mk_raw_connection` puts the two nodes in one net; a global net always wins the union; the nets are merged as `Merge` says and nothing else changes |
| Canon.ChainLookup | act/lang/id.cc:835-838 | a name found by walking the scope chain is a real slot |
| Canon.FindInChain | act/lang/id.cc:835-838 | the scope-chain loop finds the slot `ChainLookup` defines |
| Canon.Body | act/lang/id.cc:825-833 | the part of a path looked up below its namespace prefix is never empty |
| Canon.RawLookup | act/lang/id.cc:815-846 | the slot `rawValueIdx` resolves a path's first name to is a real slot |
| Canon.RawValueIdx | act/lang/id.cc:815-870 | returns the slot `RawLookup` defines, or its lookup error; an import can only fail internally. A slot already touched leaves the graph unchanged. An untouched one becomes touched, and its connection is a fresh top node bound to it. Earlier slots keep their connections and the graph only grows |
| Canon.ImportConnections | act/lang/id.cc:764-808 | importing the ports' connections keeps the graph valid, only extends it, leaves every slot's connection alone and fails only with an internal error |
| Canon.ImportPort | act/lang/id.cc:769-806 | importing one port into every element of an array instance, or into the scalar instance, extends the graph and fails only internally; for a scalar instance the port's node sits at the port's position below the instance, is bound to the port's slot and is linked as `LinkOf` says the port's connection asks |
| Canon.ImportAt | act/lang/id.cc:789-805 | one import target: the graph stays valid and only grows, no slot's connection changes, only internal errors arise; on success the node at the port's position below the target is bound to the port's slot and is in the net `LinkOf` names for the port's connection: a global's net, or the net of the node reached below the instance by the port's number and the primary's offsets |
| Canon.PlacePort | act/lang/id.cc:800-804 | the node at the port's position below the target, bound to the port's slot; the link the port's connection asks for is unchanged |
| Canon.BindUnbound | act/lang/id.cc:742-745 | binds a node's slot only when it had none, and nothing else changes |
| Canon.ImportConnRec | act/lang/id.cc:688-750 | a non-primary port net belonging to a global always succeeds. On success the target is linked as `LinkOf` says: in the global's net, or in the net of the node reached below the instance by the path `CorrPath` names for the primary; for a primary port with children `LinkOf` is `ChildByChild`, which states no link. A primary port without children, or any primary in the older copy, imports nothing |
| Canon.LinkToSlot | act/lang/id.cc:710-721 | on success the target is in the net of the node `_find_corresponding_slot` reaches below the instance along the path `CorrPath` names for the primary |
| Canon.LinkedSlotCorresponds | act/lang/id.cc:714-718 | a node linked to a slot is in the net of a node under the same top as the instance whose offsets are the instance's, then the port's number, then the primary's offsets inside the type |
| Canon.LinkUp | act/lang/id.cc:692-721 | the non-primary case: a global net always succeeds and the target joins it; otherwise, on success, the target joins the net of the node corresponding to the local primary below the instance; the graph only grows and only internal errors arise |
| Canon.ImportChild | act/lang/id.cc:738-748 | one child of a primary port: the graph stays valid and only grows, no slot's connection changes, and only internal errors arise |
| Canon.FindCorrespondingSlot | act/lang/id.cc:606-660 | an unknown root port name is the internal error "Port not found?"; otherwise a result is the node reached below the instance by descending to the port's position and then along every offset of the stack |
| Canon.FollowStack | act/lang/id.cc:636-659 | the loop over the offset stack: a result is the node reached below the instance by the port's position followed by every offset of the stack |
| Canon.SlotStepBelow | act/lang/id.cc:638-657 | a step from the node a path reaches gives the node the path extended by that offset reaches |
| Canon.SlotStep | act/lang/id.cc:638-657 | one offset of the stack: an array step when the type is an array not yet dereferenced, a port step otherwise; it says which it was, and the result is the child at that offset below the node |
| Canon.PortStep | act/lang/id.cc:645-656 | a port step succeeds only for a port position of the type; the child it returns sits at that position below the node and has the port's type |
| Canon.BindPort | act/lang/id.cc:629-634 | the port's node ends up bound to the port's slot exactly when the port's name is declared in the type's scope; the structure is unchanged |
| Canon.Named | act/lang/id.cc:1130-1137 | the walked part of a path is the path without its namespace prefix |
| Canon.Canonical | act/lang/id.cc:1064-1482 | a lookup error of `rawValueIdx` is passed through. A result means the first name's slot is touched and the result is a primary node. It is the end of the rounds `Rounds` describes over the named segments, starting in the net of that slot's connection: each dereference takes the element at its row-major offset, each following name the port of that number, bound to the slot the rest of the path names in the port's type. The first round's slot is the one `VxOf` picks for its primary in the slots the walk began with; each later round's slot is the one `VxOf` picks for its primary in the slots the previous round left, where since that round's dereference only its port node was rebound. For a plain name it is the primary of that slot's connection |
| Canon.Follow | act/lang/id.cc:1373-1464 | the walk over the segments keeps the graph valid, keeps touched slots' connections and only grows and merges nets; a result is the end of `Rounds` over all segments from the given primary and slot, the first round starting with the slots the walk found, each later round's slot tied to its primary as `Rounds` says |
| Canon.NextRound | act/lang/id.cc:1373-1464 | one more round extends the rounds of the walk by the round `Step` took, recording the slots it left; when a round follows, the slot it returns is the one `VxOf` picks for the primary it returns in those slots |
| Canon.RoundsKept | act/lang/id.cc:1373-1464 | rounds of the walk, including the slot each one's successor takes, stay as they went when later steps only add nodes and merge nets |
| Canon.RoundsSnoc | act/lang/id.cc:1373-1464 | a round that starts in the net the last one ended in, and whose successor's slot is the one `VxOf` picks in the slots it left, extends the rounds |
| Canon.Step | act/lang/id.cc:1373-1464 | one round of the walk as `RoundIn` describes it: the element the dereference names, the port the next name names below that element's primary, bound to the slot `RawLookup` finds for the rest of the path in the port's type; the result is the primary of the port's node. The dereference's slot is the one `VxOf` picks for its primary (`cx->getvx()`), and when a segment follows, the returned slot is the one `VxOf` picks for the returned primary and only the port node was rebound since the dereference; nothing changes for a last segment without dereference |
| Canon.PortRound | act/lang/id.cc:1402-1457 | the port half of a round: the port the next name names below the dereference's primary, bound to the slot of the rest of the path; the returned slot is the one `VxOf` picks for the returned primary, and only the port node was rebound |
| Canon.Start | act/lang/id.cc:1083-1094 | resolves the first name (or passes on the `RawLookup` error), touches its slot, and returns the slot, the primary of its connection and the slot `VxOf` picks for that primary (`cx->getvx()`) |
| Canon.DerefStep | act/lang/id.cc:1377-1400 | a segment without dereference changes nothing. A dereference returns the primary of the child at the subscript's row-major offset below the node, with the slot `VxOf` picks for it; no slot is rebound. A dereference of a scalar, or an index outside the declared box, is the internal error of the source's assertion |
| Canon.PortStepOf | act/lang/id.cc:1402-1457 | a port step needs a user-defined type and a positive port number (internal errors otherwise); it returns the primary of the child at that port's position, whose slot is the one `RawLookup` finds for the rest of the path in the type's scope, with the slot `VxOf` picks for that primary; only that child is rebound |
| Canon.BoundPort | act/lang/id.cc:1439-1443 | the child at the port's position, bound to the slot `RawLookup` finds for the rest of the path in the type's scope; no other bound node is rebound |
| Canon.BindNode | act/lang/id.cc:1441-1443 | the node is bound to the slot `RawLookup` finds for the rest of the path; no other bound node is rebound |
| Canon.ElementPrimary | act/lang/id.cc:1384-1398 | the primary of the element's net, with the slot `VxOf` picks for it; no slot is rebound |
| Canon.Climb | act/lang/id.cc:1541-1546 | each round of `rootCanonical` goes to the top and takes the primary, staying a node of the graph |
| Canon.ClimbSettles | act/lang/id.cc:1541-1546 | when the climb settles, it settles on a node that is both a top node and a primary |
| Canon.ClimbFixed | act/lang/id.cc:1546 | a node that is both top and primary is a fixed point of the climb |
| Canon.ClimbIdempotent | act/lang/id.cc:1537-1549 | climbing again from the node the climb settled on returns it unchanged, whatever the bound |
| Canon.ClimbOnce | act/lang/id.cc:1542-1545 | one round reaches the primary of the top node |
| Canon.Settle | act/lang/id.cc:1541-1546 | the loop computes the climb |
| Canon.RootCanonical | act/lang/id.cc:1537-1549 | a lookup error of `rawValueIdx` is passed through; otherwise the result is both a top node and a primary |
| Canon.IsNonLocal | act/lang/id.cc:2014-2030 | the fatal error of `isDynamicDeref` is passed through, and so is a lookup error. A top-level dynamic dereference is local. Otherwise the answer is whether the top primary node reached is global or a port of the enclosing non-function type |
| Canon.ValidateDerefLoop | act/lang/id.cc:1848-1908 | the loop decides `ValidateDeref`: the first name is declared and every segment's subscript fits its declared type down the chain of port types |
| Canon.DerefFromChain | act/lang/id.cc:1862-1906 | `validateDeref` holds exactly when there is a chain of slots, one per segment, each subscript fitting and each next name declared in the previous type |
| Ids.CloneSub | act/lang/id.cc:66-71 | the subscript copy denotes the same subscript in fresh storage |
| Ids.DynamicLater | act/lang/id.cc:1522-1531 | a dynamic dereference below the first segment is the fatal error "Only simple (first-level) dynamic derefs are supported" |
| Ids.DynamicFirst | act/lang/id.cc:1512-1534 | with no dynamic dereference below the first segment, the answer is whether the first one is dynamic |
| Ids.NulBuffer | act/lang/id.cc:543-544 | `Print`'s local buffer of 10240 characters starts as the empty C string |
| Ids.PrintoutCStr | act/lang/id.cc:541-547 | after `sPrint`, the buffer read as a C string is the layout of the printed segments truncated to the buffer size less one |
| Ids.ActId.constructor | act/lang/id.cc:39-44 | a new segment has the given name and subscript and no successor |
| Ids.ActId.IsEqual | act/lang/id.cc:1485-1500 | two identifiers are equal exactly when they have the same segments, names and subscripts alike |
| Ids.ActId.Clone | act/lang/id.cc:62-81 | the clone is a fresh chain, with fresh subscripts, denoting the same path |
| Ids.ActId.Append | act/lang/id.cc:535-539 | appending to a segment without successor concatenates the paths; appending to one with a successor is the internal error of the assertion |
| Ids.ActId.Link | act/lang/id.cc:1781 | linking a chain after the last segment concatenates the two paths |
| Ids.ActId.Tail | act/lang/id.cc:1503-1510 | the tail is the last segment of the chain |
| Ids.ActId.IsRange | act/lang/id.cc:521-533 | true exactly when some segment has a subscript that is not a dereference |
| Ids.ActId.IsNamespace | act/lang/id.cc:1939-1955 | decides whether the first name contains ':', with the assertions (a successor, no subscript) as internal errors |
| Ids.ActId.IsDynamicDeref | act/lang/id.cc:1512-1535 | returns 1 exactly when the first subscript is dynamic, and fails when a later one is |
| Ids.ActId.SPrint | act/lang/id.cc:557-580 | the buffer holds the segments up to `end`, joined by '.' except after a namespace prefix, truncated to the buffer size; an invalid namespace prefix leaves the buffer untouched |
| Ids.ActId.Print | act/lang/id.cc:541-547 | the printed text is the layout of the segments up to `end`, truncated to 10239 characters |
| Ids.ActId.OldPrint | act/id.cc:407-442 | the older `Print` joins every segment with '.', truncated the same way |
| Ids.ActId.PrintSegs | act/lang/id.cc:564-579 | the print loop leaves the buffer holding the truncated layout of the segments before `end` |
| Ids.ActId.PrintLoop | act/lang/id.cc:564-579 | the walk from the first segment to `end` prints every segment before `end` |
| Ids.ActId.PrintAt | act/lang/id.cc:564-578 | one turn of the walk prints the next segment and advances to its successor, or stops with the buffer full |
| Ids.ActId.PrintTurn | act/lang/id.cc:565-577 | one turn writes the separator (none first, none after a namespace prefix), the name and the subscript |
| Ids.ActId.PrintNode | act/lang/id.cc:572-577 | the name and the subscript of one segment are printed as its text |
| Ids.ActId.ClearLastArray | act/lang/id.cc:1916-1924 | removes the last segment's subscript and nothing else |
| Ids.ActId.StripArray | act/lang/id.cc:1910-1927 | returns a fresh copy of the path without the last segment's subscript |
| IdParse.ScanDelim | act/lang/id.cc:1686-1697 | finds the first of either delimiter in the C string and says which it was |
| IdParse.StrLen | act/lang/id.cc:1701-1706 | the length of the remaining C string |
| IdParse.ScanOpen | act/lang/id.cc:1710-1716 | the position of the first opening bracket in the segment, or -1 |
| IdParse.SkipDigitsAt | act/lang/id.cc:1728-1731 | the digit-skipping loop stops at the first non-digit |
| IdParse.ReadStr | act/lang/id.cc:1718 | the name copied into the new segment is the text up to the NUL |
| IdParse.ParseSubsBad | act/lang/id.cc:1732-1750 | digits not followed by the closing bracket make the subscript a parse error |
| IdParse.ParseSubsNext | act/lang/id.cc:1751-1758 | a well-formed index continues with another subscript, is followed by garbage (error), or ends the segment |
| IdParse.SubStep | act/lang/id.cc:1727-1757 | one subscript: either the parse error, or the index `atoi` reads and the position after ']' |
| IdParse.ParseSubsIn | act/lang/id.cc:1720-1775 | the subscript loop computes `ParseSubs` on the text from the first '[' |
| IdParse.ParseSegIn | act/lang/id.cc:1708-1775 | parsing one segment computes `ParseSeg` and leaves the string as it found it |
| IdParse.ParseSegsLast | act/lang/id.cc:1795 | with no delimiter left, the parse is the one last segment |
| IdParse.ParseSegsNext | act/lang/id.cc:1786-1795 | with a delimiter, the parse is the segment before it followed by the parse of the rest |
| IdParse.SegmentAt | act/lang/id.cc:1684-1775 | one round of the outer loop finds the delimiter and parses the segment before it, restoring the string |
| IdParse.MakeSub | act/lang/id.cc:1751-1756 | the subscript object built from the parsed indices denotes them |
| IdParse.Build | act/lang/id.cc:1777-1783 | the chain of new segments denotes exactly the parsed path |
| IdParse.ParseIdIn | act/lang/id.cc:1669-1798 | NULL for a NULL string; otherwise the string is restored, the result is NULL exactly when the text does not parse, and a result denotes the parsed path |
| IdParse.ParseIdInDefault | act/lang/id.cc:1801-1804 | the same with '.', '[', ']' and '.' as delimiters |
| IdParse.Strdup | act/lang/id.cc:1644 | the duplicate holds the text as a C string |
| IdParse.ParseId | act/lang/id.cc:1653-1667 | parsing a constant string parses a duplicate: NULL exactly when it does not parse, the parsed path otherwise |
| IdParse.ParseIdDefault | act/lang/id.cc:1638-1651 | the same with the default delimiters |
| Paths.LayoutPrefix | act/lang/id.cc:564-579 | printing fewer segments gives a prefix of printing more |
| Paths.LayoutIsJoin | act/lang/id.cc:564-579 | without a namespace prefix the printed text is the segment texts joined by '.' |
| Paths.LayoutNamespace | act/lang/id.cc:562-571 | with a namespace prefix, no '.' follows the prefix |
| Paths.RenderNamespace | act/lang/id.cc:562-571 | a namespace-qualified path prints as the prefix glued to the rest of the path |
| Paths.SkipDigits | act/lang/id.cc:1729-1731 | the index after the digits: no smaller than the start and followed by a non-digit |
| Paths.SkippedAreDigits | act/lang/id.cc:1729-1731 | everything skipped is a digit |
| Paths.FindDelim | act/lang/id.cc:1686-1697 | the first position holding either delimiter, or -1 when there is none |
| Paths.IndexOf | act/lang/id.cc:1710-1716 | the first position holding the character, or -1 when there is none |
| Paths.NatTextDigits | act/lang/id.cc:1729 | a printed index is all digits |
| Paths.DigitsValueOfNatText | act/lang/id.cc:1752 | the value of a printed index's digits is the index |
| Paths.AtoiAt | act/lang/id.cc:1752 | `atoi` reads back a printed index followed by a non-digit |
| Paths.ParseSubsAt | act/lang/id.cc:1727-1758 | a printed subscript of constant non-negative indices parses back to itself |
| Paths.SubTextChars | act/lang/id.cc:575 | a printed constant subscript contains no '.' |
| Paths.ParseSegOfSegText | act/lang/id.cc:1708-1775 | a printed segment contains no '.' and parses back to itself |
| Paths.ParseOfJoin | act/lang/id.cc:1683-1795 | the segment texts joined by '.' parse back to the path |
| Paths.ParseOfRender | act/lang/id.cc:1669-1798 | round trip: a path without namespace prefix whose names hold no '.', '[' or NUL and whose subscripts are constant non-negative indices parses back from its printed form |
| Canon.ChainCons | act/lang/id.cc:1887-1904 | a slot whose subscript fits, followed by a fitting chain for the rest starting at the declared next name, is a fitting chain |
| OldEval.Find | act/id.cc:133-145 | the scope-chain search finds the name in a scope no deeper than the start that declares it |
| OldEval.Walk | act/id.cc:148-222 | a successful walk ends in the scope declaring the last name, with every segment's subscript checked against its type |
| OldEval.SubAllSetMeansEveryElement | act/id.cc:264-297 | the corrected subrange check holds exactly when every element of the subrange's box is set |
| OldEval.BoxSetOfSubAllSet | act/id.cc:264-297 | the corrected check implies every element of the box is set |
| OldEval.BoxElementSet | act/id.cc:264-297 | under the corrected check, each element of the box is set |
| OldEval.NotBoxSet | act/id.cc:264-297 | when the corrected check fails, some element of the box is unset |
| OldEval.MemberOfSub | act/id.cc:264-297 | every element of the box is set exactly when every position a subscript member occupies is set |
| OldEval.DerefBox | act/id.cc:245-246 | a dereference's box holds exactly one element, the one at its offset |
| OldEval.ReadScalar | act/id.cc:312-322 | a scalar parameter is readable exactly when it was bound and its one value is set |
| OldEval.ReadWhole | act/id.cc:264-297 | a whole array is readable exactly when it was bound and all its elements are set |
| OldEval.ReadSub | act/id.cc:264-297 | a subrange is readable exactly when it was bound and passes the corrected check |
| OldEval.ReadDeref | act/id.cc:312-322 | a dereference is readable exactly when it was bound and its element is set |
| OldEval.FinishReadable | act/id.cc:236-322 | evaluating a parameter as an rvalue succeeds exactly when it is readable, with the corrected subrange check |
| OldEval.EvalRvalReadable | act/id.cc:124-322 | a successful rvalue evaluation reads a parameter only when it is readable, with the corrected subrange check |
| OldEval.EvalLvalIsVar | act/id.cc:257-262 | an lvalue evaluates to the variable itself, and whatever evaluates as an rvalue evaluates as an lvalue |
| OldEval.EvalIndexInRange | act/id.cc:245-254 | "Index is out of range" never happens: the walk has already validated the subscript |
| OldEval.WalkErrors | act/id.cc:169-202 | the fatal errors of the walk are exactly the source's four messages |
| OldEval.EvalFatalOnBadSegment | act/id.cc:169-202 | a first segment whose subscript does not fit its type is a fatal error |
| OldEval.AsWrittenSubAllSetMissesElement | act/id.cc:276-296 | the check as written accepts a 2x2 subrange of a 3x3 array whose element [1][1] is unset |
| OldEval.FindScope | act/id.cc:133-138 | the search loop computes `Find` |
| OldEval.WalkIds | act/id.cc:148-222 | the walk loop computes `Walk` |
| OldEval.CheckRun | act/id.cc:276-297 | the element loop over a dense array decides that all its positions are set |
| OldEval.CheckSub | act/id.cc:276-297 | the element loop over a subrange decides the corrected check |
| OldEval.FinishParam | act/id.cc:230-383 | the parameter part of evaluation computes `Finish`, which uses the corrected subrange check |
| OldEval.Eval | act/id.cc:124-384 | evaluation computes `EvalOf`: the walk, then `Finish` with the corrected subrange check |
| OldCanon.Above | act/id.cc:1041-1050 | the next node up the rebuild stack has a smaller index, or is -1 above the top; the failure value -2 comes exactly when the node has no slot of its own, its parent's or its grandparent's |
| OldCanon.Ancestry | act/id.cc:1039-1051 | the stack of nodes from the top down to the node, ending with the node itself, or the internal error "What?" |
| OldCanon.Emit | act/id.cc:1059-1119 | rebuilding one stacked node extends the name by at least one segment, keeping what was rebuilt before; it fails when the rebuild is stuck or the node has no slot |
| OldCanon.EmitAll | act/id.cc:1057-1120 | the rebuilt name has at least one segment per stacked node |
| OldCanon.Rebuilt | act/id.cc:1037-1121 | the rebuilt rest of a name is never empty |
| OldCanon.EmitNode | act/id.cc:1058-1119 | rebuilding one stacked node computes `Emit` |
| OldCanon.PushAncestors | act/id.cc:1039-1051 | the push loop computes `Ancestry` |
| OldCanon.Climb | act/id.cc:1041-1050 | one step of the push loop computes `Above` |
| OldCanon.PopAll | act/id.cc:1057-1120 | the pop loop computes `EmitAll` |
| OldCanon.RebuildRest | act/id.cc:1037-1121 | push then pop computes `Rebuilt` |
| OldCanon.AncestryOfBound | act/id.cc:1039-1051 | when every node up the chain has a slot, the stack is that chain |
| OldCanon.EmitAllOfBound | act/id.cc:1057-1069 | when every stacked node has a slot, the rebuilt name is their slot names |
| OldCanon.RebuiltOfBound | act/id.cc:1037-1121 | when every node up the chain has a slot, the rebuilt name is the names of the chain |
| OldCanon.RebuiltElement | act/id.cc:1070-1083 | an element of an array rebuilds to a subscripted segment whose subscript names that element |
| OldCanon.Canonical | act/id.cc:911-1247 | a lookup error of the older `rawValueIdx` is passed through. A result means the first slot is touched, and the result is a primary node. An early return happens only for a path of several segments and ends on a global's node. Otherwise the result is the end of `Rounds` over the first name and the rebuilt rest, starting in the net of the first slot's connection with that slot; each later round's slot is the one `VxOf` picks for its primary in the slots the previous round left; a plain name gives the primary of its slot's connection |
| OldCanon.Prepare | act/id.cc:911-1138 | the first slot, the primary of its connection and, for a longer path, either an early answer on a global's node or the path to walk, which starts with the first name |
| Iters.PrefixGrows | act/lang/iter.cc:88-107 | the entries of fewer buckets are a prefix of the entries of more |
| Iters.Entry | act/lang/iter.cc:61-69 | an iterator on an entry stands at that entry's position in the flattened table |
| Iters.SettledUnique | act/lang/iter.cc:50-53 | two settled iterators at the same position are at the same bucket and entry |
| Iters.IndexOrder | act/lang/iter.cc:88-107 | a settled iterator in an earlier bucket comes earlier |
| Iters.Advance | act/lang/iter.cc:88-107 | `operator++` moves to the next entry in order, or to the end, skipping empty buckets |
| Iters.BucketIter.Copy | act/lang/iter.cc:36-41 | the copy constructor copies the table, bucket and entry |
| Iters.BucketIter.Inc | act/lang/iter.cc:88-107 | pre-increment advances the position by one from an entry, or settles from the start |
| Iters.BucketIter.PostInc | act/lang/iter.cc:43-48 | post-increment returns the old iterator and advances this one |
| Iters.BucketIter.Begin | act/lang/iter.cc:71-78 | `begin()` is settled at position 0 |
| Iters.BucketIter.End | act/lang/iter.cc:80-86 | `end()` is past the last bucket with no entry |
| Iters.BucketIter.Current | act/lang/iter.cc:61-69 | `operator*` is NULL exactly at the end; otherwise it is the entry at the iterator's position |
| Iters.EqualsIsPlace | act/lang/iter.cc:50-53 | settled iterators are equal exactly when at the same position; equal to `end()` exactly after the last entry |
| Iters.Entries | act/lang/iter.cc:71-107 | a `begin()`..`end()` loop visits every entry of the table once, in order |
| Iters.FilterSkip | act/lang/iter.cc:406-437 | skipping unwanted entries does not change what is visited |
| Iters.ProcIter.Inc | act/lang/iter.cc:406-437 | the unique-process increment stops only on a wanted entry or the end, skipping only unwanted ones |
| Iters.ProcIter.constructor | act/lang/iter.cc:345-351 | a new iterator is on the given table and filter, before the first bucket |
| Iters.ProcIter.Begin | act/lang/iter.cc:389-396 | `begin()` is on the first wanted entry, or the end |
| Iters.ProcIter.End | act/lang/iter.cc:398-404 | `end()` is past the last bucket |
| Iters.ProcIter.Current | act/lang/iter.cc:379-387 | `operator*` is NULL exactly at the end, otherwise the entry at the position |
| Iters.WantedEntries | act/transform/act2v/main.cc:150-154 | the process loop visits exactly the wanted entries, in order |
| Iters.Hop | act/lang/iter.cc:246-257 | following the ring any number of times stays in the start's net |
| Iters.ConnIter.constructor | act/lang/iter.cc:196-200 | a new iterator is on the given net and start node, not yet begun |
| Iters.ConnIter.Begin | act/lang/iter.cc:232-237 | `begin()` stands on the start node |
| Iters.ConnIter.Inc | act/lang/iter.cc:246-257 | the increment moves to the ring successor, or to the end when that is the start; it stays in the start's net |
| Iters.Aliases | act/lang/iter.cc:232-257 | the loop visits the start, then its ring successors, all aliases of the start, stopping when the ring returns |
| Iters.RingBound | act/lang/iter.cc:246-257 | the ring returns to the start within the known bound |
| Iters.AliasesDistinct | act/lang/iter.cc:246-257 | with distinct successors, the aliases visited are distinct |
| Iters.HopBack | act/lang/iter.cc:246-257 | with distinct successors, meeting a node twice means the ring has returned to the start |
| Tech.MinStep | act/lang/tech.h:43-48 | one step of the scan keeps the smaller value, or takes the first |
| Tech.RangeTable.constructor | act/lang/tech.h:31-35 | a new range table has the given size and entries and no cached minimum |
| Tech.RangeTable.Min | act/lang/tech.h:36-51 | `min()` returns the cached value when set, otherwise computes and caches `RangeMin` |
| Tech.ScanOddIsMinimum | act/lang/tech.h:42-49 | the scan over odd entries yields their minimum, an entry it visited |
| Tech.FreshRangeMinIsOddMinimum | act/lang/tech.h:36-51 | for two or more entries, `min()` is the least odd-positioned entry |
| Tech.SingleEntryRangeMin | act/lang/tech.h:39-41 | a one-entry table's minimum is its entry |
| Tech.NewContact | act/lang/tech.h:291-297 | a new contact has the name and no asymmetric surround or LEF width |
| Tech.ContactSymmetry | act/lang/tech.h:298-299 | symmetric exactly when both asymmetric surrounds are 0, asymmetric exactly when not; a new contact is symmetric |
| Tech.GetViaNSpacing | act/lang/tech.h:202-207 | 1 without a table, the table's entry otherwise |
| Tech.GetViaPSpacing | act/lang/tech.h:209-214 | 1 without a table, the table's entry otherwise |
| Tech.GetRunTable | act/lang/tech.h:175-178 | width 0 is the spacing table, width w the (w-1)th auxiliary table |
| Tech.SimpleSpacing | act/lang/tech.h:167-171 | spacing is simple exactly when there is no run length and the spacing table has at most one entry |
| TypeCodes.BaseType | act/types.h:960 | the low five bits of the code |
| TypeCodes.FixBaseType | act/types.h:958 | the base type with the data variants folded into `T_BOOL` and `T_INT` |
| TypeCodes.BaseTypeIsNumExactly | act/types.h:962 | numeric exactly for int, data-int and real |
| TypeCodes.BaseTypeIsIntBoolExactly | act/types.h:964 | int-or-bool exactly for int, data-int, bool and data-bool |
| TypeCodes.FlagsKeepBaseType | act/types.h:941-960 | flags above the low five bits do not change the base type |
| TypeCodes.FixBaseTypeIdempotent | act/types.h:958 | folding twice is folding once |
| TypeCodes.ExprMethodSlot | act/types.h:568-570 | an expression method's slot is its number less `ACT_NUM_STD_METHODS` |
| TypeCodes.ProbeSlots | act/types.h:502-520 | the probe methods are 8 and 9, in slots 0 and 1, named by the expression method table |
| TypeCodes.IsBiDirectional | act/types.h:130 | 1 exactly for a channel with an acknowledge type |
| UserTypes.IndexIn | act/lang/types.cc:2239-2248 | the first position holding the name, or -1 exactly when absent |
| UserTypes.PortCode | act/lang/types.cc:211-226 | 0 when absent; -(i+1) for the first parameter named so; i+1 for the first port, and only when no parameter has the name |
| UserTypes.PortAt | act/lang/types.cc:136-160 | succeeds exactly for a position inside the tables: a negative position is a parameter (from -1), a non-negative one a port |
| UserTypes.PortNameOfCode | act/lang/types.cc:136-160 | `getPortName` of what `FindPort` returns (less one for a port) is the name looked up |
| UserTypes.PortCodeInjective | act/lang/types.cc:211-226 | distinct names found have distinct codes |
| UserTypes.FreeFrom | act/lang/types.cc:415-417 | the first free inherited slot at or after `i`, or the table size |
| UserTypes.Place | act/lang/types.cc:411-423 | placing the specified parameters keeps the table size |
| UserTypes.PlaceKeeps | act/lang/types.cc:411-423 | a slot filled before placement keeps its binding |
| UserTypes.PlaceBindsAll | act/lang/types.cc:411-423 | every specified parameter ends up in the table |
| UserTypes.FreeFromAsWritten | act/lang/types.cc:415-417 | the loop as written, when it stays in bounds, stops inside the table |
| UserTypes.TooManyParamsReadsPastEnd | act/lang/types.cc:415-420 | with one slot and two specified parameters the loop as written reads past the table, where the corrected loop reports "Too many template parameters specified?" |
| UserTypes.FreeFromAgrees | act/lang/types.cc:415-417 | the loop as written stays in bounds exactly when a free slot exists, and then finds the same one |
| UserTypes.Inherit | act/lang/types.cc:393-425 | the inherited table has one slot per parameter |
| UserTypes.MustBeActiveSend | act/lang/types.cc:2168-2191 | fatal for probes on both ends or a send probe on a bidirectional channel; otherwise 1 for bidirectional; else 0 exactly with a send probe and 1 exactly with a receive probe |
| UserTypes.ActiveEndsOpposite | act/lang/types.cc:2193-2205 | the receive answer fails with the send answer and is its opposite; -1 exactly for a unidirectional channel without probes |
| UserTypes.UserDef.constructor | act/lang/types.cc:229-267 | a new type has empty parameter, port and macro tables, no parent and is neither expanded nor pending |
| UserTypes.UserDef.AddMetaParam | act/lang/types.cc:91-132 | fails (0) exactly for a name already a parameter or in scope; otherwise appends the parameter, adds it to the scope and marks it immutable in an expanded type |
| UserTypes.UserDef.AddPort | act/lang/types.cc:169-209 | fails (0) exactly for a name already a parameter, port or in scope; otherwise appends the port and adds it to the scope |
| UserTypes.UserDef.FindPort | act/lang/types.cc:211-226 | the loops compute `PortCode` |
| UserTypes.UserDef.GetPortName | act/lang/types.cc:136-147 | the name at a position, as `PortAt` |
| UserTypes.UserDef.GetPortType | act/lang/types.cc:149-160 | the type at a position, as `PortAt` |
| UserTypes.UserDef.IsStrictPort | act/lang/types.cc:430-442 | 1 exactly for a parameter name |
| UserTypes.UserDef.IsPort | act/lang/types.cc:444-461 | 1 exactly for a port or parameter name |
| UserTypes.UserDef.NewMacro | act/lang/types.cc:2225-2237 | fails exactly for a name already a macro; otherwise appends it and returns its index |
| UserTypes.UserDef.GetMacro | act/lang/types.cc:2239-2248 | the index of the macro, or -1 |
| UserTypes.UserDef.SetParent | act/lang/types.cc:386-427 | records the parent. The inherited table is untouched when nothing is inherited. It is the parent's inherited bindings then the specified parameters placed in free slots, or the fatal error when they do not fit |
| UserTypes.SeedInherited | act/lang/types.cc:398-410 | the table starts empty, with the parent's inherited bindings copied at the parent's parameter base |
| UserTypes.PlaceParams | act/lang/types.cc:411-423 | the placement loop computes `Place` |
| Expand.ScalarText | act/lang/types.cc:880-894 | a parameter value prints with no ',' (reals aside) |
| Expand.ElemTexts | act/lang/types.cc:847-874 | an array value prints one text per element |
| Expand.JoinInjective | act/lang/types.cc:813-816 | comma-free texts joined by ',' determine the texts |
| Expand.IntsPieces | act/lang/types.cc:803-900 | for integer parameters, the name lists the printed value of each specified parameter |
| Expand.IntTextNoComma | act/lang/types.cc:884 | a printed integer has no ',' |
| Expand.IntTextInjective | act/lang/types.cc:884 | distinct integers print differently |
| Expand.IntTextSign | act/lang/types.cc:884 | a printed integer starts with '-' exactly when negative |
| Expand.IntsKeyInjective | act/lang/types.cc:796-901 | for integer parameters, equal instance names mean equal parameter lists, so the type cache never confuses two instances |
| Expand.KeyShape | act/lang/types.cc:796-901 | the instance name is the type name, '<', the parameters and '>' |
| Expand.ElemsText | act/lang/types.cc:840-878 | the element loop prints the elements joined by ',', or fails as the first unprintable element does |
| Expand.ElemTextsErr | act/lang/types.cc:865-867 | the first element that cannot print decides the error |
| Expand.ElemTextsErrUp | act/lang/types.cc:865-867 | an error in a prefix is the error of the whole array |
| Expand.ValueTextOf | act/lang/types.cc:839-897 | printing one bound value computes `ValueText` |
| Expand.PieceOf | act/lang/types.cc:818-898 | printing one parameter computes `Piece` |
| Expand.BuildKey | act/lang/types.cc:792-901 | the name-building loop computes `Key`: the name of the instance, or the error of its first unprintable parameter |
| Expand.TypeTable.Expand | act/lang/types.cc:545-1014 | "Exceeded maximum recursion depth" at the bound. On success the depth is restored and the name is the instance's `Key`. The type is cached and no longer pending, was not pending before, and the cache only grows. A cache hit changes nothing. A fresh type's body instantiates no instance of the same name |
| Expand.TypeTable.ExpandPorts | act/lang/types.cc:950-965 | the ports of an expanded type include no zero-length array |
| Expand.TypeTable.ExpandBody | act/lang/types.cc:999-1002 | a type being expanded is never instantiated again in its own body (otherwise "Recursive construction of type") |

## Left out

- I/O is not modelled. `fprintf` to a file, `stderr` diagnostics and `act_error_ctxt` are left out; printing stops at the buffer (`Ids.ActId.Print` returns the text).
- `getNamespace` is not modelled: the scope of a namespace-qualified name is the `nsScope` parameter of `Canon.RawValueIdx` and its callers.
- The process interface map of `Canonical` (act/lang/id.cc:1139-1184) is not modelled; the path is taken as mapped.
- The `Array` and `Scope` classes are not part of this model. Arrays are modelled as constant or dynamic indices over a dense box laid out in row-major order. `Offset` of a subrange is the position of its first element. A dynamic index fails `Validate`.
- The `act_connection` class itself is not part of this model; its operations are modelled from their use in act/lang/id.cc (`primary()` at 1092, 1385 and 1445, `getsubconn` at 1384 and 1440, `_act_mk_raw_connection` at 708 and 718) and from the invariants `Conn.Net.Valid()` states.
- Type checking (`type_connectivity_check`), expression expansion and the body expansion (`Expandlist`) are left out. Parameter values arrive evaluated and a body is the list of types it instantiates.
- Canon.ImportConnections: states that the graph stays valid, only grows, keeps every slot's connection and fails only internally, but not the link of each port. The graph of the model does not keep a type's own nodes apart from an instance's, so a later port's import may in principle re-root the net an earlier port's link was computed from; the link is stated per target by `Canon.ImportAt`.
- Canon.ImportPort: for an array instance the link of each element is not restated after the loop, for the same reason; the scalar case states it.
- Canon.ImportConnRec, Canon.ImportChild: for a primary port with children, `Canon.ImportConnRec` states no link per child (its `ChildByChild` link is trivially kept), and `Canon.ImportChild` does not restate the link of the child; the recursive `Canon.ImportConnRec` call it makes states it, and between the two calls the child's link would have to be shown unchanged once more, as `Canon.PlacePort` does for a port.
- Paths.Atoi, IdParse.SubStep: an index with more digits than a C `int` holds overflows in `atoi` (act/lang/id.cc:1752), which is undefined behaviour in the source; the model reads it as an unbounded number.
- Canon.Canonical, Canon.Follow, OldCanon.Canonical: a round after the first is not stated to start with exactly the slots the previous round left (nothing between two rounds changes them, but stating it costs the proof too much); instead its slot is stated to be the one `VxOf` picks in the slots the previous round left.
- Canon.Canonical: each round is stated up to the net the walk reaches (`Rounds` says a round starts in the net the last one ended in), not as the exact primary node, because later steps of the walk may merge nets and so change which node is primary.
- OldCanon.Canonical: as `Canon.Canonical`; besides, the rest of the walked path is stated to start with the first name, not to equal `OldCanon.Rebuilt` of the node found, because the rebuild reads the graph at a state the later walk changes.
- OldEval.Eval, OldEval.FinishParam, OldEval.CheckSub, OldEval.FinishReadable, OldEval.EvalRvalReadable: use the corrected subrange check `SubAllSet`, which tests every element of the box; the loop as written (act/id.cc:276-296) tests `size()` consecutive slots, as `OldEval.AsWrittenSubAllSetMissesElement` shows (see Findings).
- Ids.ActId.SPrint, Ids.ActId.Print: the `style` argument (act/lang/id.cc:541, 557, 575) is only passed on to `Array::sPrint`, which is not part of this model; subscripts print in the one style the model has.
- Canon.ImportConnRec, Canon.ImportChild and Canon.Climb: the recursion is bounded by a `fuel` parameter; running out of fuel is an internal error. The source recurses without bound on the finite graph.
- Expand.TypeTable.ExpandPorts: does not restate the canonicalisation of each port (act/lang/types.cc:962-964), which only touches the port's slot.
- Expand.ScalarText: reals are printed from their text rather than by `%g`; floating point is not modelled.
- `%lu` printing of a negative `pint` value is modelled as a 64-bit wrap-around (`ULongRange`).
- The `self` entries of channel, data and function types and the expansion of macros (act/lang/types.cc:968-1009) are left out.
- `Assert (... isExpanded ...)` checks on scopes and types are left out: every scope of the model is expanded.
- Iters.ConnIter: the ring length is a ghost parameter of `Iters.Aliases`; the graph's ring invariant does not by itself make a net one cycle.
- Ids.ActId.Clone: the model covers chains whose nodes are owned by the chain; the source's sharing of subscripts between chains is not modelled.
- The tail pointer of `parseId` is not modelled: `IdParse.Build` links the segments from the head.
- The `_run_chp` interpreter, `Function::eval`, `Data::getStructOffset` and the other struct helpers of act/lang/types.cc are left out: they are evaluation and layout code outside the model.
- The command-line drivers and `lispCli` are context only.
- OldCanon.Rebuilt: the older rebuild drops the port name when the parent is a user type that is not an array, and in the grandparent case at the head of the stack; this is modelled as written, and no claim is made about those names.
- The `#if 0` sections of act/lang/id.cc (1186-1371) are dead code and are not modelled.

## Findings

| source | as written | input that shows it | evidently intended | confidence | as-written member | corrected member |
|---|---|---|---|---|---|---|
| act/id.cc:264-297 | reading a subrange checks `size()` consecutive value slots from the position of its first element | `pint x[3][3]` with positions 0 to 3 set, read as `x[0..1][0..1]`: the four slots 0 to 3 are set, but element [1][1] at position 4 is not | every element of the subrange is checked | low, not executed (the `Array` class's `Offset` and `size` for subranges are not part of this model) | OldEval.AsWrittenSubAllSetMissesElement | OldEval.SubAllSetMeansEveryElement |
| act/lang/types.cc:415 | `while (inherited_param[i] && i < nt)` reads `inherited_param[i]` before testing `i < nt` | a one-slot inherited table (nt = 1) given two specified parameters: after placing the first, the loop reads `inherited_param[1]`, past the end of the `MALLOC`ed table | test `i < nt` first, then report "Too many template parameters specified?" | medium, not executed | UserTypes.TooManyParamsReadsPastEnd | UserTypes.FreeFromAgrees |
