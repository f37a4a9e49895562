# PBR molecule viewer and renderer core in Dafny

This project models the non-graphical core of a small OpenGL PBR renderer and
its molecule viewer, and proves properties of the model:

- **Atom KD-tree** (`AtomKDTree`, kdtree.dfy). The root constructor computes the bounding box of every
  atom sphere. The recursive builder picks the axis `depth % 3` and splits at the mean of the centres.
  An if / else-if test sends each atom left or right. Nodes with at most 12 atoms become leaves; any
  other node gets two children over the two half-boxes.
- **Atom loader** (`AtomLoader`, atom_loader.dfy). This covers the attribute lookup on one XML line
  (`FindPropertyInXMLLine`) and the scan that locates the `<scheme type=...>` sections (`PreProcessXML`).
  It also covers the three passes of `LoadAtomTemplates` over their one stream, and the ATOM-record pass of `LoadAtoms` with
  its map insertions.
- **Buffer layouts** (`Buffer`, buffer.dfy): shader data type sizes and component counts, and the
  offset and stride pass.
- **Vertex arrays** (`VertexArrays`, vertex_array.dfy): the attribute slots `addVertexBuffer` hands out
  for each layout element, and `setIndexBuffer`.
- **Sphere mesh** (`Sphere`, sphere.dfy): the triangle-strip index loops, the texture coordinates of
  the vertex grid, the interleaving of vertex data, the sphere's vertex array, and the static vertex
  array shared by every `Sphere`.
- **Events** (`Events`, `CoreEvents`): category flags, the category test and `EventDispatcher::Dispatch`,
  in both copies. Also `Application::onEvent` as a chain of dispatches.
- **Layer stack** (`LayerStacks`): push, pop by identity, and detaching on destruction.
- **Camera** (`Cameras`): keyboard movement, mouse look with the pitch clamp, and the zoom clamp.
- **Timestep** (`Timesteps`, `CoreTimesteps`) and the **per-frame keyboard handling** (`InputHandling`)
  of the application and of the two main layers.

Some inputs and effects enter the model as parameters:

- A file is given as `Option<seq<string>>` of its lines; `None` means it could not be opened.
- Number parsing (`std::stringstream >>`) is a caller-supplied `Parsers` value.
- The trigonometric recomputation of the camera vectors is a function parameter (`Orientation`).
- The OpenGL ids of buffers are plain numbers.
- The keys held down in a frame are a set.

`real` stands in for `float` throughout.

## Model

| member | source | states |
|---|---|---|
| AtomKDTree.LowFold | PBRApp/src/AtomKDTree.cpp:16-27 | the running minimum of `pos - r` is at most the seed and at most every atom's low end, and is either the seed or some atom's low end |
| AtomKDTree.HighFold | PBRApp/src/AtomKDTree.cpp:16-33 | the running maximum of `pos + r` is at least the seed and every atom's high end, and is either the seed or some atom's high end |
| AtomKDTree.RootBox | PBRApp/src/AtomKDTree.cpp:6-33 | the root box encloses every atom's sphere on every axis; each corner coordinate is its seed (largest float, smallest positive float) or an atom's extreme |
| AtomKDTree.FoldedCornersPerAxis | PBRApp/src/AtomKDTree.cpp:8-33 | the corners assembled from the three per-axis folds hold each fold's value on its axis |
| AtomKDTree.SeededBox | PBRApp/src/AtomKDTree.cpp:8-33 | the box of the two folds from given seeds encloses every atom's sphere; each corner coordinate is its seed or some atom's extreme, and lies beyond the seed on its side |
| AtomKDTree.RootBoxLowIsTight | PBRApp/src/AtomKDTree.cpp:10-27 | for a non-empty atom list within float range, the lower corner is attained by some atom's `pos - r` |
| AtomKDTree.HighFoldKeepsLargerSeed | PBRApp/src/AtomKDTree.cpp:28-31 | a max seed no atom exceeds is never replaced |
| AtomKDTree.RootBoxHighIgnoresNegativeCloud | PBRApp/src/AtomKDTree.cpp:8-31 | since the max is seeded with `numeric_limits<float>::min()` (positive), a cloud whose spheres lie below it gets upper corner `MIN_FLOAT` on every axis, not its own extent |
| AtomKDTree.CorrectedRootBox | PBRApp/src/AtomKDTree.cpp:8-33 | with the upper corner seeded by the lowest float, the box still encloses every atom, and each corner is its seed or an atom's extreme |
| AtomKDTree.CorrectedRootBoxHighIsTight | PBRApp/src/AtomKDTree.cpp:8-31 | for a non-empty atom list within float range, the corrected upper corner is attained by some atom's `pos + r`, also for a cloud below zero |
| AtomKDTree.AxisSumBounds | PBRApp/src/AtomKDTree.cpp:49-53 | the sum of `n` centres bounded by `lo`/`hi` lies in `[n*lo, n*hi]` |
| AtomKDTree.MeanWithinCentres | PBRApp/src/AtomKDTree.cpp:49-55 | the split value `half` lies within any bounds holding every centre on the axis |
| AtomKDTree.LeftOf | PBRApp/src/AtomKDTree.cpp:57-62 | every left atom has its low end at or below the split value |
| AtomKDTree.RightOf | PBRApp/src/AtomKDTree.cpp:57-66 | every right atom failed the left test and reaches the split value from above |
| AtomKDTree.Partition | PBRApp/src/AtomKDTree.cpp:56-67 | the single if / else-if pass yields exactly the left-test atoms and the right-test atoms, each in input order |
| AtomKDTree.PartitionNeverDuplicates | PBRApp/src/AtomKDTree.cpp:57-66 | left and right together are a sub-multiset of the input: no atom is put on both sides |
| AtomKDTree.NonNegativePartitionKeepsEveryAtom | PBRApp/src/AtomKDTree.cpp:57-66 | by induction over the list: with every radius non-negative, the two sides together are the input as a multiset |
| AtomKDTree.SubMultisetKeepsRadii | PBRApp/src/AtomKDTree.cpp:57-66 | a side drawn from the atoms (as a sub-multiset) keeps the atoms' non-negative radii |
| AtomKDTree.PartitionKeepsEveryAtom | PBRApp/src/AtomKDTree.cpp:57-66 | with non-negative radii, left and right together are exactly the input as a multiset |
| AtomKDTree.PartitionAllLeft | PBRApp/src/AtomKDTree.cpp:59-62 | when every sphere reaches down to the split value, the right side is empty and the left is the input |
| AtomKDTree.NegativeRadiusDropsAtom | PBRApp/src/AtomKDTree.cpp:59-66 | an atom centred on the split value with radius -1 fails both tests and is on neither side |
| AtomKDTree.LeftAtomMayStickOut | PBRApp/src/AtomKDTree.cpp:55-82 | a concrete pair whose left atom's sphere extends past the split value, although the left child's box ends at it |
| AtomKDTree.PartitionSidesKeepRadii | PBRApp/src/AtomKDTree.cpp:56-67 | both sides of a partition of non-negative-radius atoms have non-negative radii |
| AtomKDTree.Decide | PBRApp/src/AtomKDTree.cpp:46-74 | a leaf keeps at most 12 atoms, all atoms when radii are non-negative; a split has a non-empty input, splits at the mean, and has more than 12 atoms between its sides; 12 atoms or fewer always give a leaf; the leaf of a non-empty input holds the left side followed by the right side of the partition |
| AtomKDTree.LowerHalf | PBRApp/src/AtomKDTree.cpp:77-82 | the left child's box keeps the parent's lower corner and ends at the split value on the axis |
| AtomKDTree.UpperHalf | PBRApp/src/AtomKDTree.cpp:77-83 | the right child's box keeps the parent's upper corner and starts at the split value on the axis |
| AtomKDTree.Build | PBRApp/src/AtomKDTree.cpp:44-85 | a finished build has the given box, leaves of at most 12 atoms, children cut on axis `depth % 3`, and atoms a sub-multiset of the input (all of them with non-negative radii); 12 atoms or fewer always finish as a leaf |
| AtomKDTree.BuildRoot | PBRApp/src/AtomKDTree.cpp:6-42 | a finished root tree's box encloses every atom; leaves are within the limit, axes cycle from 0, and no atom of non-negative radius is lost |
| AtomKDTree.SingleNegativeAtomIsLost | PBRApp/src/AtomKDTree.cpp:49-74 | a lone atom of negative radius yields an empty leaf |
| AtomKDTree.CoincidentAtomsNeverFinish | PBRApp/src/AtomKDTree.cpp:49-83 | more than 12 atoms at one position with non-negative radii never finish building, on any fuel |
| AtomKDTree.CoincidentAtomsAllGoLeft | PBRApp/src/AtomKDTree.cpp:49-66 | for such atoms the node splits at their common centre with every atom on the left |
| AtomKDTree.SplitWithUnfinishedHalfNeverFinishes | PBRApp/src/AtomKDTree.cpp:75-83 | a split whose left child does not finish does not finish |
| AtomKDTree.BuildCapped | PBRApp/src/AtomKDTree.cpp:69-84 | the corrected builder is total; it keeps the box and the axis cycling, and with non-negative radii every atom is kept |
| AtomKDTree.BuildRootCapped | PBRApp/src/AtomKDTree.cpp:6-35 | the corrected root build always yields a tree whose box is the corrected root box, which encloses every atom, and that keeps every atom of non-negative radius |
| AtomKDTree.BuildCappedAgreesWithBuild | PBRApp/src/AtomKDTree.cpp:44-85 | whenever the source's build finishes within `fuel` levels, the capped build with the same cap gives the same tree |
| AtomKDTree.FinishedSplitHadFuel | PBRApp/src/AtomKDTree.cpp:69-83 | a splitting node that finished had fuel left |
| AtomKDTree.FinishedSplitHasFinishedHalves | PBRApp/src/AtomKDTree.cpp:75-83 | a finished split is a node whose children are the finished builds of its two halves over the two half-boxes |
| AtomKDTree.CappedSplitWithAgreeingHalves | PBRApp/src/AtomKDTree.cpp:75-83 | a capped split whose halves give a node's children gives that node |
| AtomLoader.Find | PBRApp/src/AtomLoader.cpp:32-33 | `find` reports an index at or after `from` where the pattern occurs |
| AtomLoader.FindSkipsNoOccurrence | PBRApp/src/AtomLoader.cpp:32-33 | `find` skips nothing: no occurrence lies between `from` and the reported index, and none at all from `from` on when it reports `npos` |
| AtomLoader.FindReportsFirstOccurrence | PBRApp/src/AtomLoader.cpp:32 | an occurrence with none before it is exactly what `find` reports |
| AtomLoader.FindReportsFirstChar | PBRApp/src/AtomLoader.cpp:41 | the quote search stops at the first quote from the start position |
| AtomLoader.FindPropertyInXMLLine | PBRApp/src/AtomLoader.cpp:30-49 | the value never contains a quote; it is empty when `prop=` occurs nowhere in the line; a non-empty value means `prop=` was found |
| AtomLoader.ValueFrom | PBRApp/src/AtomLoader.cpp:41-48 | the text read from the value start never contains a quote, and is non-empty only when a closing quote follows |
| AtomLoader.ValueStartsAfterMatch | PBRApp/src/AtomLoader.cpp:32-39 | once `prop=` is first found at `i`, the value is read from `i + len(prop) + 2` |
| AtomLoader.ValueEndsAtQuote | PBRApp/src/AtomLoader.cpp:41-48 | a quote found at `e` lies inside the line and closes the value: it is the substring from the start up to `e` |
| AtomLoader.ValueBetweenMatches | PBRApp/src/AtomLoader.cpp:32-48 | with `prop=` first found at `i` and the next quote at `e`, the lookup returns exactly the text strictly between the skipped quote and `e` |
| AtomLoader.ValueReadBack | PBRApp/src/AtomLoader.cpp:32-48 | with `prop=` first found at `i` and a quote-free `v` running from the value start to the next quote, the lookup returns `v` |
| AtomLoader.RenderedPropertyIsFound | PBRApp/src/AtomLoader.cpp:32 | in a line `before + prop="v" + after` with no earlier `prop=`, the search for `prop=` stops at the attribute |
| AtomLoader.RenderedValueEndsAtQuote | PBRApp/src/AtomLoader.cpp:41 | in such a line, the quote search from the value start stops at the closing quote, and the text between is `v` |
| AtomLoader.FindPropertyReadsRenderedValue | PBRApp/src/AtomLoader.cpp:30-49 | round trip: for a line containing `prop="v"` (v without quotes, no earlier `prop=`), the lookup returns `v` |
| AtomLoader.UnanchoredMatchReadsAnotherAttribute | PBRApp/src/AtomLoader.cpp:32 | the match is not anchored at a name boundary: looking up `r` in `<atom number="6"/>` returns `6` |
| AtomLoader.SkipsCharacterAfterEquals | PBRApp/src/AtomLoader.cpp:39 | the character after `=` is skipped whatever it is: `a=xy"` reads `y` |
| AtomLoader.LineEndingAtEqualsHasNoValue | PBRApp/src/AtomLoader.cpp:39-46 | a line that ends right after `prop=` yields the empty string |
| AtomLoader.FileMapping.Set | PBRApp/src/AtomLoader.cpp:264-295 | writing one section's range changes that range only |
| AtomLoader.EmptyMapping | PBRApp/src/AtomLoader.cpp:244-252 | a fresh mapping has the path and every range (0, 0), which is also what an unopenable file returns |
| AtomLoader.CloseIsPlain | PBRApp/src/AtomLoader.cpp:260-293 | `</scheme>` is never taken for a header |
| AtomLoader.Scan | PBRApp/src/AtomLoader.cpp:254-299 | the scan never changes the file path |
| AtomLoader.StopFrom | PBRApp/src/AtomLoader.cpp:287-291 | the scan stops at the first unknown scheme header, or at the end of the file |
| AtomLoader.LastHeader | PBRApp/src/AtomLoader.cpp:260-286 | finds the last header of a section before line n, and exists exactly when there is one |
| AtomLoader.LastClose | PBRApp/src/AtomLoader.cpp:293-296 | finds the last `</scheme>` before line n that was met while the section was open, and exists exactly when there is one |
| AtomLoader.ScanStepHeader | PBRApp/src/AtomLoader.cpp:262-286 | a known header line sets its section's start to the next line and makes it the open section, preserving agreement with the declarative ranges |
| AtomLoader.ScanStepClose | PBRApp/src/AtomLoader.cpp:293-296 | a `</scheme>` line with an open section sets that section's end to its own line number, preserving agreement |
| AtomLoader.ScanStepPlain | PBRApp/src/AtomLoader.cpp:258-298 | any other line changes nothing, preserving agreement |
| AtomLoader.ScanStep | PBRApp/src/AtomLoader.cpp:258-298 | every line before the stop moves the scan to a state that again agrees with the declarative ranges, and the rest of the scan continues from it |
| AtomLoader.ScanComputesRanges | PBRApp/src/AtomLoader.cpp:254-299 | the forward scan computes, for every section, the start after its last header and the end at its last close, up to the stop line |
| AtomLoader.PreProcessXML | PBRApp/src/AtomLoader.cpp:242-304 | the mapping keeps the path; an unopenable file gives all (0, 0); otherwise every section's range is its declarative range up to the stop line |
| AtomLoader.NeverOpenedMeansNeverClosed | PBRApp/src/AtomLoader.cpp:257-296 | a section with no header before line n is never the open section, so it has no close either |
| AtomLoader.UnseenSectionStaysEmpty | PBRApp/src/AtomLoader.cpp:242-304 | a section whose header never appears before the stop line keeps range (0, 0) |
| AtomLoader.HeaderIsRecognised | PBRApp/src/AtomLoader.cpp:260-286 | each section's header is recognised as that section whatever follows, despite `Atoms`/`AtomsMapping` and `Residues`/`ResiduesMapping` sharing prefixes |
| AtomLoader.UnknownSchemeFileLines | PBRApp/src/AtomLoader.cpp:287-303 | in the sample file the leading `</scheme>` and the color line are plain lines, the Atoms header is recognised, and the scan stops at line 4, the unknown scheme |
| AtomLoader.UnknownSchemeEndsScan | PBRApp/src/AtomLoader.cpp:287-303 | a `</scheme>` before any header is ignored, and an unknown scheme type ends the scan so a later Radius section stays (0, 0) |
| AtomLoader.SectionLines | PBRApp/src/AtomLoader.cpp:131-136 | on a good stream, within the file the loop reads exactly the file lines `[first, second)`; an inverted range reads nothing; a line past the end of the file reads as empty |
| AtomLoader.Collect | PBRApp/src/AtomLoader.cpp:133-146 | a run of `m[key] = value` writes holds exactly the keys written |
| AtomLoader.CollectKeepsLastWrite | PBRApp/src/AtomLoader.cpp:194-196 | the value held for a key is the last one written to it |
| AtomLoader.Lookup | PBRApp/src/AtomLoader.cpp:194-195 | `operator[]` reads the stored value, or the value-initialised one for a missing key: in both cases what the map holds for the key once `operator[]` has inserted it |
| AtomLoader.ReadPass | PBRApp/src/AtomLoader.cpp:21-28 | one `GotoLine` and loop over the shared stream: a good stream reads exactly the section's lines; a stream failed before the pass, or by skipping more than one line past the end, reads only empty lines; the stream is failed afterwards exactly when it was at the start or the loop reads past the last line |
| AtomLoader.PassesWithinFileReadSections | PBRApp/src/AtomLoader.cpp:130-176 | when the Atoms and Radius passes stay within the file and the AtomsMapping pass starts at most one line past it, every pass reads exactly its own section |
| AtomLoader.PreProcessedRangesWithinFile | PBRApp/src/AtomLoader.cpp:254-299 | every range the preprocessing finds starts and ends within the file |
| AtomLoader.PreProcessedPassesReadSections | PBRApp/src/AtomLoader.cpp:123-202 | over a preprocessed file's own ranges the three passes never fail the stream and read exactly their sections |
| AtomLoader.AtomsOverrunLoadsNoTemplates | PBRApp/src/AtomLoader.cpp:130-176 | an Atoms range running past the end fails the stream for good: the Radius and AtomsMapping passes read only empty lines and no element gets a template |
| AtomLoader.OverrunHidesMappingLine | PBRApp/src/AtomLoader.cpp:130-198 | the one-line file `identifier="C"` with Atoms range (0, 2) files no template for 'C', although the AtomsMapping range (0, 1) covers that line |
| AtomLoader.ColorOfRenderedChannels | PBRApp/src/AtomLoader.cpp:51-64 | a line carrying `r`, `g` and `b` attributes, each the first of its name, is read as the colour of those three values in that order |
| AtomLoader.ColorsById | PBRApp/src/AtomLoader.cpp:130-146 | an id has a colour exactly when some line the Atoms pass reads carries that id |
| AtomLoader.LastColorLineWins | PBRApp/src/AtomLoader.cpp:144-145 | an id's colour is that of the last Atoms line carrying the id |
| AtomLoader.RadiiById | PBRApp/src/AtomLoader.cpp:148-172 | an id has a radius exactly when some line the Radius pass reads carries that id |
| AtomLoader.LastRadiusLineWins | PBRApp/src/AtomLoader.cpp:170-171 | an id's radius is the `radius` value of the last Radius line carrying the id |
| AtomLoader.TemplateWrite | PBRApp/src/AtomLoader.cpp:176-197 | a mapping line files a template exactly when its identifier is one character, under that character, with the colour and radius filed under its number and zero for a number with none |
| AtomLoader.LoadAtomTemplates | PBRApp/src/AtomLoader.cpp:123-202 | an unopenable file gives no templates; otherwise an element has a template exactly when some line the AtomsMapping pass reads names it as a one-character identifier |
| AtomLoader.LastMappingLineWins | PBRApp/src/AtomLoader.cpp:176-197 | an element's template comes from the last line of the AtomsMapping pass naming it, with the colour and radius the earlier passes filed under that line's number |
| AtomLoader.WordEnd | PBRApp/src/AtomLoader.cpp:227 | a field runs over non-space characters up to the first space or the end |
| AtomLoader.FieldsFrom | PBRApp/src/AtomLoader.cpp:226-227 | every field from a position on is a non-empty word without whitespace |
| AtomLoader.Fields | PBRApp/src/AtomLoader.cpp:226-227 | every whitespace-separated field of a line is a non-empty word without whitespace, as `>> std::string` reads it |
| AtomLoader.FieldsOfLeadingWord | PBRApp/src/AtomLoader.cpp:227 | a word followed by a space or the end is read as one field |
| AtomLoader.WordEndAfterWord | PBRApp/src/AtomLoader.cpp:227 | a field extraction stops exactly at the first space after the word |
| AtomLoader.FieldsFromShift | PBRApp/src/AtomLoader.cpp:227 | text in front of a line does not change how the line splits into fields |
| AtomLoader.FieldsOfJoinedWords | PBRApp/src/AtomLoader.cpp:226-227 | round trip: the fields of words joined by single spaces are the words |
| AtomLoader.SkipSpace | PBRApp/src/AtomLoader.cpp:227 | an extraction skips exactly the whitespace run in front of the next field |
| AtomLoader.FieldsAfterSpace | PBRApp/src/AtomLoader.cpp:227 | skipping whitespace passes over no field |
| AtomLoader.ExtractWord | PBRApp/src/AtomLoader.cpp:227 | `>> std::string` reads the next field and leaves the others; with no field left, or on a failed stream, the string is empty and the stream is failed |
| AtomLoader.DigitsEnd | PBRApp/src/AtomLoader.cpp:227 | a numeric read runs over digits up to the first non-digit or the end |
| AtomLoader.DigitsEndAfterDigits | PBRApp/src/AtomLoader.cpp:227 | the digit run stops exactly at the first non-digit |
| AtomLoader.UnsignedNumeralIsReadWhole | PBRApp/src/AtomLoader.cpp:227 | a field of digits whose value fits 64 bits is read whole and leaves nothing |
| AtomLoader.NumeralReadWithinField | PBRApp/src/AtomLoader.cpp:227 | the sign and digits a numeric read takes are those at the start of the next field, and what follows is the rest of that field and then the later fields |
| AtomLoader.NumeralWithinWord | PBRApp/src/AtomLoader.cpp:227 | the number read at the start of a field ends inside it, where the field's own numeral end says |
| AtomLoader.ExtractUnsigned | PBRApp/src/AtomLoader.cpp:227 | `>> uint64_t` fails exactly when no field is left or the next field does not start with an optional sign and digits of at most 64 bits; on success the next extraction sees the rest of that field, then the later fields |
| AtomLoader.ReadAtomLine | PBRApp/src/AtomLoader.cpp:219-233 | the element is the first character of the first field after the numeric `atomId`, and the residue key the third; those fields are what the number leaves of the second field followed by the later fields, and there are none (element `'\0'`, empty key) when the second field does not start with a readable number |
| AtomLoader.ReadAtomLineReadsFields | PBRApp/src/AtomLoader.cpp:227-233 | when the second field is a number read whole, the element comes from the third field and the residue key is the fifth |
| AtomLoader.ReadAtomLineOfJoinedWords | PBRApp/src/AtomLoader.cpp:226-233 | round trip: for any record written as single-space-joined fields with a digits-only atom id, the element is the first character of the third field and the residue key the fifth |
| AtomLoader.SampleRecordIsWellFormed | PBRApp/src/AtomLoader.cpp:226 | the sample record's fields are words and its atom id a plain number |
| AtomLoader.AtomRecords | PBRApp/src/AtomLoader.cpp:214-236 | atom i is read from the i-th line starting with `ATOM`, in file order, one atom per such line |
| AtomLoader.AtomLines | PBRApp/src/AtomLoader.cpp:215-217 | the records are exactly the file's lines starting with `ATOM`, no more of them than lines |
| AtomLoader.AtomLinesOfConcatenation | PBRApp/src/AtomLoader.cpp:215-217 | the filter keeps file order: the records of two concatenated parts are those of the first, then those of the second |
| AtomLoader.InsertMissing | PBRApp/src/AtomLoader.cpp:231-233 | `m[key]` evaluated for its side effect adds exactly the missing keys, with the zero value, and keeps every existing entry |
| AtomLoader.Elements | PBRApp/src/AtomLoader.cpp:230-231 | the template keys looked up are exactly the atoms' elements |
| AtomLoader.ResidueKeys | PBRApp/src/AtomLoader.cpp:233 | the residue keys looked up are exactly the atoms' residue fields |
| AtomLoader.ReadAtoms | PBRApp/src/AtomLoader.cpp:214-236 | the atoms are those of the ATOM records in file order; the template and residue maps gain exactly the keys the atoms use that were missing, with zero entries, and keep every old entry |
| AtomLoader.LoadAtoms | PBRApp/src/AtomLoader.cpp:204-240 | an unopenable file yields no atoms and leaves both maps untouched |
| AtomLoader.SampleRecordFields | PBRApp/src/AtomLoader.cpp:226-233 | on the sample record the element is `N` and the residue key is the chain `A`, not the residue name `ILE` |
| AtomLoader.AtomIdStopsInsideField | PBRApp/src/AtomLoader.cpp:227-233 | the atom id stops at the first non-digit: in `ATOM 12A N ILE A ...` the tag reads `A` and the residue key `ILE` |
| AtomLoader.TwelveAIsReadAsTwelve | PBRApp/src/AtomLoader.cpp:227 | `>> atomId` on `12A` succeeds and leaves `A` |
| AtomLoader.UnreadableAtomIdBlanksRecord | PBRApp/src/AtomLoader.cpp:227-233 | when the second field holds no number (`ATOM100000 N ...`), the stream fails: the element is `'\0'` and the residue key is empty |
| Buffer.ShaderDataTypeSize | src/Renderer/Buffer.h:16-35 | the size is zero exactly for `None` |
| Buffer.ComponentCount | src/Renderer/Buffer.h:51-70 | at most 4 components, zero exactly for `None` |
| Buffer.SizeMatchesComponents | src/Renderer/Buffer.h:16-70 | the two tables agree: vectors are 4 bytes per component, matrices count x count floats, a bool one byte and one component |
| Buffer.Element | src/Renderer/Buffer.h:46-49 | a new element's size comes from the type table and its offset is 0 |
| Buffer.CalculateOffsetsAndStride | src/Renderer/Buffer.h:92-102 | each offset is the sum of the sizes before it, nothing else about an element changes, and the stride is the total |
| Buffer.SameSizesSameSum | src/Renderer/Buffer.h:96-101 | only element sizes determine the offsets and stride |
| Buffer.PrefixSumGrows | src/Renderer/Buffer.h:96-101 | offsets never decrease along the layout |
| Buffer.LaidOutElementsTileStride | src/Renderer/Buffer.h:92-102 | the first element starts at 0, each starts where the previous ends, every element ends within the stride, and the last ends exactly at it |
| Buffer.SumOfOneMore | src/Renderer/Buffer.h:98-100 | each step adds the element's size to the running offset |
| Buffer.EmptyLayoutHasZeroStride | src/Renderer/Buffer.h:103-105 | the default layout is laid out with stride 0 |
| Buffer.SphereLayoutOffsets | src/Application.cpp:119-123 | the sphere layout `{Float3, Float3, Float2}` gets offsets 0, 12, 24 and stride 32 |
| VertexArrays.ShaderDataTypeToOpenGLBaseType | src/Renderer/VertexArray.cpp:7-26 | GL_FLOAT exactly for float vectors and matrices, GL_INT for int vectors, GL_BOOL for Bool, 0 for `None` |
| VertexArrays.ElementPointers | src/Renderer/VertexArray.cpp:56-110 | an element gets consecutive slots from the next free one, one per matrix column otherwise one, each with the type's component count; a non-matrix slot reads at the element offset and matrix column i at `offset + 4 * count * i`; the integer path is taken for int and bool types, normalisation is forwarded only on the float path, and only matrix columns get a divisor |
| VertexArrays.LayoutPointers | src/Renderer/VertexArray.cpp:55-111 | a layout's slots are consecutive and carry its stride; integer slots are exactly the non-float ones and are never normalised |
| VertexArrays.AddVertexBuffer | src/Renderer/VertexArray.cpp:48-114 | the layout's slots start at the next free slot, which moves past them; the buffer is appended and the index buffer is kept |
| VertexArrays.SetIndexBuffer | src/Renderer/VertexArray.cpp:116-121 | the index buffer is replaced, and the slots and vertex buffers are kept |
| VertexArrays.MatrixColumnsTileElement | src/Renderer/VertexArray.cpp:90-107 | matrix columns start `i` columns of floats after the element offset and tile the element exactly |
| VertexArrays.NoneElementIsSkipped | src/Renderer/VertexArray.cpp:108-109 | a `None` element gets no slot |
| VertexArrays.ElementPointersReadInsideElement | src/Renderer/VertexArray.cpp:56-107 | every slot of an element reads within that element's bytes |
| VertexArrays.LayoutPointersReadInsideVertex | src/Renderer/VertexArray.cpp:55-111 | when every element fits in the stride, every slot reads within the vertex |
| VertexArrays.SuccessiveBuffersUseDisjointSlots | src/Renderer/VertexArray.cpp:48-114 | two buffers attached in turn get disjoint, adjacent runs of slots |
| VertexArrays.SphereBufferUsesFirstThreeSlots | src/Application.cpp:119-130 | the sphere's buffer on a new vertex array takes slots 0, 1, 2 at offsets 0, 12, 24, stride 32, GL_FLOAT, not normalised or instanced |
| Sphere.StripIndexInBand | src/Application.cpp:76-96 | entry j of band y sits at position `y * 130 + j` of the strip |
| Sphere.EvenBand | src/Application.cpp:78-85 | the inner loop of an even band pushes 130 entries, entry j being the closed-form strip entry (left to right) |
| Sphere.OddBand | src/Application.cpp:86-93 | the inner loop of an odd band pushes 130 entries, entry j being the closed-form strip entry (right to left) |
| Sphere.GenerateIndices | src/Application.cpp:75-96 | the index loops produce 8320 entries, equal entry by entry to the closed-form strip (even bands left to right, odd bands right to left) |
| Sphere.StripIndicesReferToGridVertices | src/Application.cpp:75-96 | every strip index names a vertex of the grid |
| Sphere.BandCoversBothRows | src/Application.cpp:80-92 | band y passes through every vertex of grid rows y and y + 1 |
| Sphere.BandTrianglesAreProper | src/Application.cpp:78-93 | every strip triangle within a band has three distinct corners |
| Sphere.GridVertexNumber | src/Application.cpp:59-70 | the vertex pushed for `(x, y)` has texture coordinates `(x/64, y/64)` |
| Sphere.GenerateUV | src/Application.cpp:59-73 | the grid loops push 4225 texture coordinates, vertex v getting those of its `(x, y)` |
| Sphere.Interleave | src/Application.cpp:98-115 | the data holds `w` floats per position, `w` being 3, +3 with normals, +2 with uv |
| Sphere.InterleavedVertexAt | src/Application.cpp:98-115 | vertex i's floats sit at `[i*w, i*w + w)`: position, then normal, then uv |
| Sphere.EarlierVertexKept | src/Application.cpp:99-115 | appending a vertex leaves the earlier vertices' floats in place |
| Sphere.LastVertexAppended | src/Application.cpp:99-115 | the last vertex's floats close the array |
| Sphere.SphereVerticesTakeEightFloats | src/Application.cpp:98-123 | with normals and uv for every vertex, each vertex takes 8 floats in the layout's order |
| Sphere.GenerateSphereVA | src/Application.cpp:117-133 | the sphere's vertex array uses slots up to 3, holds its one vertex buffer with the sphere layout, and an index buffer of 8320 indices |
| Sphere.SphereLayoutIsLaidOut | src/Application.cpp:119-123 | the attached layout is the one the layout pass produces |
| Sphere.ConstructSphere | src/Application.cpp:31-36 | the static vertex array is generated only when null and kept once set |
| Sphere.SphereVertexArrayGeneratedOnce | src/Application.cpp:31-36 | over any run of constructions the vertex array is generated at most once, and every sphere shares it afterwards |
| Events.CategoryBits | src/Events/Event.h:24-32 | each category other than `None` is a single bit |
| Events.CategoryBitsAreDistinct | src/Events/Event.h:24-32 | different categories have disjoint bits |
| Events.TypeOf | src/Events/Event.h:16-22 | every event class reports a real type, and none of them reports focus, lost-focus or moved |
| Events.IsInCategory | src/Events/Event.h:43 | the flag test holds exactly for the categories the class declares, and never for `None` |
| Events.Raise | src/Events/Event.h:36 | a new event is not handled |
| Events.Dispatch | src/Events/Event.h:54-63 | matches exactly on the event's type; on a match `handled` becomes its old value OR the handler's result; on a mismatch nothing changes; a handled event stays handled |
| Events.DispatchChain | src/Application.cpp:282-288 | a chain of dispatches keeps the event, never unhandles it, and runs at most one handler per dispatch |
| Events.DistinctChainRunsAtMostOne | src/Application.cpp:282-288 | with handlers for distinct types, exactly one runs when one targets the event's type, none otherwise |
| Events.ChainHandlesIffSomeMatchingHandlerAccepts | src/Events/Event.h:54-63 | a chain marks an unhandled event handled exactly when some handler of its type returns true |
| Events.ApplicationHandlesItsThreeTypes | src/Application.cpp:282-319 | `onEvent` runs one handler for resize, mouse-move and scroll events and marks them handled; every other event passes through unhandled |
| CoreEvents.IsInCategory | PBRApp/src/Events/Event.h:43 | never in `None`; in a category only when the flags are non-zero |
| CoreEvents.Dispatch | PBRApp/src/Events/Event.h:54-64 | same dispatch contract as the engine copy, on the `handled` member |
| CoreEvents.CategoryTestsAgree | PBRApp/src/Events/Event.h:43 | the two copies' category tests agree |
| CoreEvents.DispatchersAgree | PBRApp/src/Events/Event.h:54-64 | the two copies' dispatchers agree on the match and the resulting handled flag |
| LayerStacks.PushLayer | src/LayerStack.cpp:12-15 | the layer goes last and the earlier layers are unchanged |
| LayerStacks.Find | src/LayerStack.cpp:19 | `std::find` reports the first occurrence, or none exactly when the layer is absent |
| LayerStacks.PopLayer | src/LayerStack.cpp:17-25 | an absent layer changes nothing and detaches nothing; a present one has its first occurrence erased, the rest kept in order, and is detached once; the multiset of layers is conserved |
| LayerStacks.Destroy | src/LayerStack.cpp:3-10 | every remaining layer is detached, in stack order |
| LayerStacks.PushAllAppends | src/LayerStack.cpp:12-15 | a run of pushes appends the run in order |
| LayerStacks.DestroyDetachesInPushOrder | src/LayerStack.cpp:3-15 | destroying a stack built by pushes detaches the layers in push order |
| LayerStacks.FindReportsFirst | src/LayerStack.cpp:19 | the first occurrence is exactly what `find` reports |
| LayerStacks.PushThenPopRestores | src/LayerStack.cpp:12-25 | popping a freshly pushed layer restores the stack and detaches that layer |
| LayerStacks.PopOfTwicePushedLayerKeepsOne | src/LayerStack.cpp:17-25 | a layer pushed twice survives one pop, only its earlier entry going |
| Cameras.UpdateCameraVectors | src/Renderer/Camera.cpp:73-82 | only front, right and up change |
| Cameras.NewCamera | src/Renderer/Camera.cpp:6-15 | position, world-up, yaw and pitch are the arguments; speed 20, sensitivity 0.1, zoom 45 |
| Cameras.DefaultCamera | src/Renderer/Camera.h:15 | the camera of the default arguments sits at the origin with world-up +y, yaw -90 and pitch 0, speed 20, sensitivity 0.1 and zoom 45, and faces where the orientation of those angles points |
| Cameras.ProcessKeyboard | src/Renderer/Camera.cpp:32-43 | only the position changes |
| Cameras.OppositeStepsCancel | src/Renderer/Camera.cpp:32-43 | a step followed by an equal opposite step returns the camera to where it was |
| Cameras.KeyboardStepLength | src/Renderer/Camera.cpp:34-36 | a step moves by `speed * deltaTime` along the axis followed |
| Cameras.ClampPitch | src/Renderer/Camera.cpp:55-58 | the pitch lands in [-89, 89] and is unchanged when already inside |
| Cameras.ProcessMouseMovement | src/Renderer/Camera.cpp:45-62 | yaw and pitch move by the offsets times `sensitivity * zoom / 45`; with the constraint the pitch is exactly the moved pitch clamped into [-89, 89]; the yaw is never clamped; front, right and up are recomputed from the new yaw and pitch; position, speed, sensitivity, zoom and world-up stay |
| Cameras.ZoomingInSlowsLook | src/Renderer/Camera.cpp:47-48 | at a smaller zoom the same mouse motion turns the camera less |
| Cameras.ProcessMouseScroll | src/Renderer/Camera.cpp:64-71 | the zoom moves against the offset and lands in [1, 45], clamped at either end and exact inside; nothing else changes |
| Cameras.ScrollIsClamp | src/Renderer/Camera.cpp:64-71 | the scroll equals the clamp of `zoom - yoffset` into [1, 45] |
| Cameras.PitchClampIsClamp | src/Renderer/Camera.cpp:55-58 | the two-test pitch clamp equals the clamp into [-89, 89] |
| Cameras.ScrollInsideBoundsIsUndone | src/Renderer/Camera.cpp:64-71 | scrolling back undoes a scroll that stayed within bounds |
| Timesteps.Seconds | src/Timestep.h:13 | seconds times 1000 are the stored milliseconds |
| Timesteps.Milliseconds | src/Timestep.h:14 | milliseconds are a thousand times the seconds |
| Timesteps.AsFloat | src/Timestep.h:11 | the implicit conversion gives the milliseconds, a thousand times the seconds |
| Timesteps.UnitsRoundTrip | src/Timestep.h:13-14 | converting either unit back recovers the stored value |
| CoreTimesteps.Seconds | PBRApp/src/Core/Timestep.h:13 | seconds times 1000 are the stored milliseconds |
| CoreTimesteps.Milliseconds | PBRApp/src/Core/Timestep.h:14 | milliseconds are a thousand times the seconds |
| CoreTimesteps.AsFloat | PBRApp/src/Core/Timestep.h:11 | the implicit conversion gives the seconds |
| InputHandling.MoveStep | src/Application.cpp:272-279 | only the position changes, and with no movement key held nothing does |
| InputHandling.FirstKeyOfEachPairWins | src/Application.cpp:272-279 | with W and S both held only W moves; with A and D both held only A moves |
| InputHandling.ApplicationProcessInput | src/Application.cpp:267-280 | Escape requests closing exactly when held; the movement uses the frame time in seconds |
| InputHandling.MainLayerProcessInput | src/MainLayer.cpp:106-119 | with the cursor shown nothing moves; otherwise the movement uses the frame time in milliseconds |
| InputHandling.CoreMainLayerProcessInput | PBRApp/src/MainLayer.cpp:137-150 | with the cursor shown nothing moves; otherwise the movement uses the frame time in seconds |
| InputHandling.EngineLayerMovesThousandfold | src/MainLayer.cpp:110-111 | for the same frame, the engine's layer moves the camera `speed * ms` and the application `speed * ms / 1000` |
| InputHandling.SixteenMillisecondFrame | src/MainLayer.cpp:110-111 | a 16 ms frame with W held moves a default camera 320 units in the layer and 0.32 in the application |
| InputHandling.CoreLayerMatchesApplication | PBRApp/src/MainLayer.cpp:137-150 | the viewer's layer moves the camera exactly as `Application::processInput` does |

## Left out

- OpenGL and GLFW calls are not modelled. This covers buffer creation, binding, drawing, shaders, textures, framebuffers, windows and ImGui. Their ids are numbers, and the attribute calls are recorded as `AttribPointer` values.
- Vertex positions of the sphere use `cos`/`sin` and are not modelled. Neither is the camera's `UpdateCameraVectors` trigonometry; it is the `Orientation` parameter.
- `float` is modelled as `real`. There is no rounding, NaN or infinity, except the empty-list split: the node's 0/0 mean compares false, so it keeps nothing, which `Decide` encodes directly.
- Buffer sizes (`uint32_t` stride and size, `size_t` offsets) and the `uint64_t` line numbers are unbounded naturals. Layouts and files large enough to wrap around are not modelled.
- Opening files, `std::cerr` messages and read errors of the file streams are not modelled. A file is its line sequence or `None`.
- AtomLoader.ReadPass: the state of the one `std::ifstream` of `LoadAtomTemplates` is modelled only through its failbit, and every line of the file is taken to end with a newline. For a file without a final newline, a `GotoLine` to exactly one line past the end also fails the stream; the model does not cover that case.
- Number parsing in the XML passes (`std::stringstream >>` of an attribute value) is the caller-supplied `Parsers`; what a malformed value parses to is left to it. In the ATOM records, only whether and where each `>> uint64_t` stops is modelled, because its value is never used.
- `LoadResidues`, the residue-mapping pass, `ProcessAtoms` and the `AtomLoader` constructor are not part of this model.
- AtomLoader.ReadAtomLine: each of the three coordinates is read as one whole whitespace field handed to `Parsers`. A `>> float` that stops inside a field (`1.5A`) or fails, and so shifts or blanks the later coordinates, is not modelled, and the contract states nothing about the position.
- AtomLoader.LoadAtomTemplates: the file's lines are taken as sequences of single-byte characters, one `char` per byte. A multi-byte UTF-8 identifier such as `é` has `length()` 2 in the source and is dropped; the model agrees only when the lines are given byte by byte, not decoded. The same holds for `atomTag[0]` in `LoadAtoms`, which takes the first byte of the tag.
- AtomLoader.Scan: its own contract states only that the path is kept; the ranges it computes are stated by `ScanComputesRanges` and `PreProcessXML`.
- Focus, lost-focus and moved events have type tags but no class, so they are not `Event` values. `getName`/`toString` formatting is not modelled.
- `BIT(n)` is defined in Core.h, which is not part of this model; it is taken to be `1 << n`.
- The event classes of the viewer (PBRApp/src/Events) other than Event.h are not part of this model, so `CoreEvents` models an event by its tag, flags and `handled` flag.
- Memory management (`delete` of layers, KD children, `Ref`) and `Timer.h` are not modelled.
- Several headers belong to other revisions than the `.cpp` files, and the model follows the `.cpp` files:
  - the KD-tree header;
  - `Camera.h`'s lower-case member names;
  - `VertexArray.cpp`'s `getLayout` against `Buffer.h`'s `GetLayout`;
  - `Application::onEvent`'s `dispatcher.dispatch` (src/Application.cpp:285-287) against `Dispatch` in src/Events/Event.h.
- AtomKDTree.Build: the recursion of the source has no bound. The model counts levels with a fuel argument and answers `None` when it runs out. So "finishes" means "finishes within the fuel".
- `LoadAtoms` keys a residue by the fifth field of the ATOM record (`temp[1]`, the chain identifier in the sample record), not by the residue name; the model follows the code (`SampleRecordFields`).
- The sphere's grid pushes vertices `x`-major (vertex `x * 65 + y`), while the index loops address vertex `y * 65 + x`. With 64 segments on both axes the two grids coincide in shape, and the model states the indices as written.
- The `assert(...)` calls in the renderer are taken in their release-build reading:
  - the unknown-type branches fall through and give 0;
  - a `None` element is skipped;
  - `addVertexBuffer`'s non-empty-layout assert is a precondition of `AddVertexBuffer`.

## Findings

| source | as written | input that shows it | evidently intended | confidence | as-written member | corrected member |
|---|---|---|---|---|---|---|
| PBRApp/src/AtomKDTree.cpp:8-13 | the upper corner `m_BoxMax` is seeded with `numeric_limits<float>::min()`, the smallest positive float, so it never drops below zero | one atom at (-5, -5, -5) with radius 1 gets upper corner 2^-126 on every axis instead of -4 | seed `m_BoxMax` with `numeric_limits<float>::lowest()`, so the box is the atoms' own extent | not executed | AtomKDTree.RootBoxHighIgnoresNegativeCloud | AtomKDTree.CorrectedRootBoxHighIsTight |
| PBRApp/src/AtomKDTree.cpp:69-83 | a node with more than 12 atoms always splits, even when every atom lands on the left, so the recursion repeats the same list forever | 13 atoms at one position with radius 0 | construction terminates and keeps every atom (a node that cannot split further becomes a leaf) | not executed | AtomKDTree.CoincidentAtomsNeverFinish | AtomKDTree.BuildRootCapped |
| src/MainLayer.cpp:110-111 | `ProcessKeyboard` receives the `Timestep` through `operator float`, which in src/Timestep.h:11 returns milliseconds | a 16 ms frame with W held moves the default camera 320 units instead of 0.32 | frame time in seconds, as `Application::processInput` and the viewer's Timestep use | not executed | InputHandling.EngineLayerMovesThousandfold | InputHandling.CoreLayerMatchesApplication |
