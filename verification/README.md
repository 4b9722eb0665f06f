# Process documents, their queries, and the event index of the mgw-process-sync-client

This project models, in Dafny, the logic behind the deployment handling of the repository: the element-tree library
in `pkg/controller/etree`, the two rewritings of BPMN documents that are built on it, and the deployment store and
event index that the controller keeps in step. The path machine, the ring buffer, the tree with its parent links,
the reader, the writer, the indenter, the index, the store and the controller are imperative, as they are in Go;
each is proved against a specification on values, and the laws are proved about those specifications.

How the parts build on one another:

- **The tree** (`Forest`, `Trees`, `Grafts`, `Regrowth`, `Editing`, `Dropping`, `Copying`). `Forest.Token` is one token
  with its parent link and child list. `Forest.WellFormed` is the heap invariant: parent links and child lists agree,
  no token is listed twice, chains of parents end, only elements hold children or attributes. `Trees.TreeOf` is the
  value that a token stands for. `Editing` has the operations that keep the invariant, `Dropping` those that break it
  and the exact condition under which they do.
- **Indenting** (`Indentation`, `IndentRules`, `Blanks`, `Indenter`, `WhiteSpace`): the in-place indenter against a
  function on trees, that function against rules that leave no choice, what becomes of the tokens themselves, and what
  the whitespace flag says about a text.
- **Paths** (`Names`, `Texts`, `PathGrammar`, `PathCompiler`, `PathSpelling`, `PathAcceptance`, `PathTexts`; `Fifo`,
  `Slices`, `PathSpec`, `PathFacts`, `Sweeps`, `Pather`, `PathRelation`, `DocumentOrder`, `PathOrder`): the compiler
  against a grammar on values, a round trip with a speller, the exact conditions for success, panic and each error, and
  the shorthands; the queue machine against nested flat-maps over lists, and those against a relation without lists, an
  order and a count.
- **Reading and writing** (`Stacks`, `Reading`, `OpenElements`, `Reader`, `TokenTrip`; `Printing`, `PrintedForms`,
  `Writer`; `Lexing`, `TextTrip`, `Returns`, `Retouching`): the reader's stack machine, the printer, and the round trip
  at the level of raw tokens and, with a reference tokeniser for the part of XML 1.0 that is written, at the level of
  characters; and what the writer chooses where XML leaves a choice.
- **The rewritings** (`TopicPath`, `Renaming`, `Topics`, `TopicTrees`, `TopicTrip`, `ProcessIds`,
  `ProcessTrees`, `ProcessTrip`, `Deployment`): `ReplaceTaskTopics` and `SetProcessId` from raw tokens to text, and
  what running them on their own output gives.
- **Store and index** (`EventLog`, `EventRepo`, `Storage`, `Coherence`, `Controller`): the index against a plain log of
  resolved events, the store as an ordered map, and the handlers as a state machine over both.

Some points where the code does not do what its documentation says, or does it only sometimes:

- `InsertChild` in front of an existing child drops the last child (`Dropping.PlacedKeepsIff`,
  `Dropping.ShovedRemaining`); `WriteCData` drops all (`Dropping.OverwrittenKeepsIff`). The dropped tokens keep naming
  their former parent.
- `stripIndent`, and with it indenting, drops blanks in the same way, so it keeps the invariant over all tokens exactly
  if there are none (`Blanks.KeptIff`).
- `SetText` on an element that begins with blank character data keeps the flag that says so, and the next indenting
  drops the text that was set (`WhiteSpace.SetTextKept`).
- A position of 0, "-0" or a minus alone means the first candidate, as 1 does (`PathTexts.PositionTexts`).
- A positional filter with an index of -2^63 or below panics instead of finding nothing, because the index cannot be
  negated (`PathAcceptance.OverflowTexts`, `PathFacts.TraversalPanicsIff`).
- `ReplaceTaskTopics` depends on Go's map order exactly when a replacement value is a key that stands for something
  else (`TopicTrees.SameForEveryOrder`), and replacing back restores the document exactly when no replacement value was
  a topic that the map leaves alone (`TopicTrees.TreeBack`). A key that contains a path delimiter or a quote makes it
  fail, unless it closes the filter itself (`TopicPath.KeyCompiles`).
- Child filters list a candidate once for every matching child (`PathSpec.Copies`); the found set is not affected
  (`PathRelation.FoundAre`), positional filters behind them are.
- A delete notification whose storage transaction fails takes the events out of the index but leaves the record, after
  which store and index differ exactly if the record has events that resolve (`Coherence.DeleteKeepsIff`).
- The writer lets carriage returns and characters that XML excludes pass, and the reference tokeniser does not give
  back a document that holds any (`Returns.TokensReadBack`).

## Model

| member | source | states |
|---|---|---|
| `Fifo.Queue.Grow` | pkg/controller/etree/helpers.go:80-94 | the contents survive the move, in order, into storage with room for one more, and exactly the live slots are copied |
| `Fifo.Queue.Add` | pkg/controller/etree/helpers.go:54-62 | the contents gain the value at the end through wrap-around and growth, and over any run the slots ever copied are at most twice the number of adds |
| `Fifo.Queue.Remove` | pkg/controller/etree/helpers.go:64-71 | the oldest value comes out, the rest stays in order, and the slot left behind is nil (part of Valid) |
| `Fifo.Queue.Len` | pkg/controller/etree/helpers.go:73-78 | the number of values held, which the buffer's two ends determine because it is never full |
| `Stacks.MatchingPop` | pkg/controller/etree/helpers.go:25-42 | whatever is pushed and popped between a push and its matching pop, the value comes out again and leaves what was below |
| `Stacks.Stack.Pop` | pkg/controller/etree/helpers.go:37-42 | the value that comes out, put back on top of what is left, gives the old stack; the slots past the top of the storage are nil, the one just left included (part of Valid) |
| `Names.DecomposeQualified` | pkg/controller/etree/helpers.go:154-161 | decomposing "space:tag" gives back space and tag exactly when the space holds no colon and, without a space, neither does the tag |
| `Texts.AtoiItoa` | pkg/controller/etree/path.go:306-313 | a written 64-bit integer passes the integer test and is read back as itself |
| `Texts.SplitJoin` | pkg/controller/etree/path.go:236-241 | splitting at a separator undoes joining pieces that do not hold it |
| `Attrs.WithAttrUnique` | pkg/controller/etree/etree.go:658-668 | setting or adding an attribute never makes a name occur twice |
| `Attrs.WithAttrOld` | pkg/controller/etree/etree.go:658-668 | an attribute that exists already gets the value in its place |
| `Attrs.WithAttrsAll` | pkg/controller/etree/etree.go:395-398 | attributes with different names are all kept, in their order |
| `Forest.Token.constructor` | pkg/controller/etree/etree.go:275-287 | a new token, bound to a parent or not, leaves the forest well-formed, with exactly one child list longer by one |
| `Forest.Token.CreateAttr` | pkg/controller/etree/etree.go:658-668 | the attribute of exactly that name gets the value, or a new one is added at the end |
| `Forest.Token.SelectAttr` | pkg/controller/etree/etree.go:419-428 | the position of the first attribute that the key matches, if there is one |
| `Forest.Token.AddChild` | pkg/controller/etree/etree.go:333-339 | the token leaves its old parent and becomes the last child, and the forest stays well-formed if the token is not above its new parent |
| `Forest.Token.RemoveChild` | pkg/controller/etree/etree.go:364-373 | the token is unbound from this element if it is a child, nothing else changes, and the forest stays well-formed |
| `Forest.DetachedWellFormed` | pkg/controller/etree/etree.go:364-373 | taking a token out of its parent's list keeps every other link and the groundedness of every chain of parents |
| `Forest.InsertedWellFormed` | pkg/controller/etree/etree.go:333-339 | binding an unbound token anywhere below a token it is not above creates no cycle and keeps the invariant |
| `Editing.AddChildTree` | pkg/controller/etree/etree.go:333-339 | after AddChild the moved token is the last child and has kept its whole tree, wherever it came from |
| `Editing.AddThenRemove` | pkg/controller/etree/etree.go:333-373 | RemoveChild takes back AddChild of an unbound token: the forest is the same as before |
| `Editing.SetText` | pkg/controller/etree/etree.go:299-320 | leading character data gets the text and keeps its flag, otherwise new character data that is not flagged as white is put in front of all children; Text then gives the text, and the invariant holds |
| `WhiteSpace.SetTextKept` | pkg/controller/etree/etree.go:310-320 | a text that is set over blank character data is dropped by the next indenting; any other stays in front of what stays anyway |
| `Editing.Root` | pkg/controller/etree/etree.go:139-146 | the first child that is an element, or nil |
| `Editing.SetRoot` | pkg/controller/etree/etree.go:153-167 | the element leaves its old parent and takes the place of the old root, which is unbound, or the last place; it is then the root, and the invariant holds |
| `Editing.EnthronedTree` | pkg/controller/etree/etree.go:153-167 | at tree level only the root's place in the document changes, and the old root keeps its tree |
| `Editing.EnthronedList` | pkg/controller/etree/etree.go:153-167 | the document lists e where its first element was, or behind all others if it had none |
| `Dropping.InsertChild` | pkg/controller/etree/etree.go:345-359 | the whole state after the call: appended if the other token is not a child, otherwise put in front of it with the last child gone |
| `Dropping.PlacedKeepsIff` | pkg/controller/etree/etree.go:345-359 | InsertChild keeps the invariant exactly when it does not find the child it is to insert before |
| `Dropping.ShovedRemaining` | pkg/controller/etree/etree.go:351-355 | apart from the lost child and what hangs below it the invariant holds, and the element has the new token among its other children, in order |
| `Dropping.WriteCData` | pkg/controller/etree/cdata.go:47-49 | the whole state after the call: one new character data token is the only child |
| `Dropping.OverwrittenKeepsIff` | pkg/controller/etree/cdata.go:47-49 | WriteCData keeps the invariant exactly when the element had no children, and keeps it of everything outside the old subtree in any case |
| `Copying.Copy` | pkg/controller/etree/etree.go:292-295 | the copy is an unbound tree of new tokens only, equal to the original; together with the original it is well-formed, and neither's tokens lie below the other |
| `Copying.Dup` | pkg/controller/etree/etree.go:577-592 | a fresh token of the given parent whose subtree, well-formed once it is unbound, equals the original's |
| `Copying.Joined` | pkg/controller/etree/etree.go:577-592 | two well-formed forests without a common token form one, in which every tree is what it was |
| `Trees.TreeFramed` | pkg/controller/etree/etree.go:577-592 | a tree, and with it what is written for it, depends on nothing but the tokens below its top, so changes elsewhere cannot reach it |
| `Indentation.CrIndentIs` | pkg/controller/etree/helpers.go:170-179 | crIndent gives a newline and max(n, 0) pad characters for every n, however long the prepared string is |
| `Indentation.PadsAre` | pkg/controller/etree/etree.go:247-264 | a level is a line feed and the given number of spaces, or one tab, for each level; nothing if the number is negative |
| `IndentRules.IndentedIff` | pkg/controller/etree/etree.go:511-548 | a tree is the indented form of another exactly if it has the same tokens, blanks aside, and obeys the rules: indentation for the depth in front of all that is not character data, except for the first such child at depth 0, indentation for the depth above at the end behind such a child, and none elsewhere, at every level |
| `IndentRules.KidsObey` | pkg/controller/etree/etree.go:522-548 | what the walk over the children lists obeys those rules |
| `Indentation.IndentedIsBare` | pkg/controller/etree/etree.go:511-574 | at every depth indenting keeps all tokens that are not blank character data, in order and in place |
| `Indentation.IndentedFromBare` | pkg/controller/etree/etree.go:551-574 | indenting gives the same whether or not the tree has blanks in it already |
| `Indentation.IndentedAgain` | pkg/controller/etree/etree.go:511-548 | indenting is idempotent, and indenting differently afterwards gives what indenting differently in the first place gives |
| `Indentation.IndentedSize` | pkg/controller/etree/etree.go:519 | n children that stay become at least n and at most 2n + 1, and none if there are none |
| `Indentation.NoIndentPrints` | pkg/controller/etree/etree.go:247-256 | with NoIndent the written text is that of the tree without any blanks, although empty tokens are inserted |
| `WhiteSpace.BuiltTruthful` | pkg/controller/etree/etree.go:402-404 | in what is read, character data is flagged as white exactly if its text has only spaces, tabs, line feeds and carriage returns |
| `WhiteSpace.ReadBare` | pkg/controller/etree/etree.go:551-574 | from a document that has been read, stripping removes exactly the texts that are white |
| `WhiteSpace.IndentedTruthful` | pkg/controller/etree/etree.go:511-548 | the flags stay true to the texts, as what is inserted is white and flagged so |
| `Indenter.StripIndent` | pkg/controller/etree/etree.go:551-574 | exactly the blank children of the element are left out of its list |
| `Indenter.StrippedTree` | pkg/controller/etree/etree.go:551-574 | among the remaining tokens the invariant holds, and only the element's own list has changed |
| `Blanks.KeptIff` | pkg/controller/etree/etree.go:551-574 | over all tokens, those taken out included, the invariant is kept exactly if the tree had no blanks: what is taken out keeps naming the parent that no longer lists it |
| `Blanks.BareIff` | pkg/controller/etree/etree.go:551-574 | a tree is free of blanks exactly if no token below its top is one |
| `Indenter.Indent` | pkg/controller/etree/etree.go:511-548 | the recursive in-place indenter terminates and turns the element's tree into the indented one; nothing outside the subtree changes, below the element exactly the blanks disappear and every other token stays with at most its list changed; among the tokens left the invariant holds, and over all tokens it holds exactly if the tree had no blanks to lose |
| `Indenter.IndentSpaces` | pkg/controller/etree/etree.go:247-256 | the document's tree afterwards is the indented one with the given number of spaces per level; all other trees are untouched, exactly the document's blanks disappear, and over all tokens the invariant holds exactly if there were none |
| `Indenter.IndentTabs` | pkg/controller/etree/etree.go:261-264 | the same with one tab per level |
| `PathCompiler.CompilePath` | pkg/controller/etree/path.go:78-317 | for every string the loops of the compiler give what the grammar says: the path, the error, or the panic on an empty piece after a bracket |
| `PathSpelling.PathReadBack` | pkg/controller/etree/path.go:205-317 | every path with legal names and values is what its own spelling compiles to |
| `PathAcceptance.CompilesIff` | pkg/controller/etree/path.go:205-300 | a string compiles exactly when no alternative is absolute and every bracket opens a filter that is not empty, is closed where it should be and has its quotes in place |
| `PathAcceptance.PanicsIff` | pkg/controller/etree/path.go:252-259 | the compiler panics exactly when, before anything else is out of order, the filters of a segment run into an empty piece after a bracket |
| `PathTexts.FailureIs` | pkg/controller/etree/path.go:205-300 | which error a text gives: of the first alternative out of order, that it is absolute, or what its first segment out of order is blamed for, which is its first unclosed piece or else its last bad filter |
| `PathTexts.LeadingSlashes` | pkg/controller/etree/path.go:221-223 | a text that starts with a double slash means the same with a dot in front |
| `PathTexts.TrailingSlashes` | pkg/controller/etree/path.go:224-226 | a text that ends with a double slash means the same with a star behind |
| `PathTexts.AlternativesInTurn` | pkg/controller/etree/path.go:205-211 | of two alternatives both groups are compiled, in order, or the first that fails gives the outcome |
| `PathTexts.PositionTexts` | pkg/controller/etree/path.go:306-313 | a filter text is a position exactly if it is a number, and which index it gives, zero and numbers beyond 64 bits included |
| `PathAcceptance.OverflowTexts` | pkg/controller/etree/path.go:306-313 | a filter text gives the index -2^63 exactly if it is a negative integer of that value or below |
| `PathAcceptance.OverflowExample` | pkg/controller/etree/path.go:393-404 | a path of one segment with that index compiles from its spelling, and evaluating it panics on every element |
| `PathSpelling.CompiledPaths` | pkg/controller/etree/path.go:205-243 | a path that compiles has one group for each alternative, no group without segments and no nil filter |
| `PathSpelling.CompiledValues` | pkg/controller/etree/path.go:287-300 | no value of an attribute and no text of a child that a compiled path compares with holds a delimiter or a quote |
| `Pather.Machine.SelectDescendants` | pkg/controller/etree/path.go:351-362 | the queue loop terminates and lists the elements below e level by level |
| `PathRelation.DescendantsOnceByDepth` | pkg/controller/etree/path.go:349-362 | the element and every element below it are listed exactly once, in non-decreasing depth |
| `DocumentOrder.DescendantsInOrder` | pkg/controller/etree/path.go:351-362 | elements of the same depth are listed in document order |
| `DocumentOrder.BeforeIsStrict` | pkg/controller/etree/path.go:351-362 | document order is irreflexive and asymmetric, so that says something |
| `PathOrder.SelectedSorted` | pkg/controller/etree/path.go:318-385 | every selector that does not go up lists each element once, shallower ones first and equally deep ones in document order |
| `PathOrder.PositionIs` | pkg/controller/etree/path.go:393-404 | a position behind a selector finds exactly the element it leads to that has as many others of them before it, or behind it if the count is from the end |
| `PathOrder.PositionStep` | pkg/controller/etree/path.go:118-123 | a position behind other filters keeps the candidate that it counts to among those they left, repeats counted |
| `PathRelation.CopiesAre` | pkg/controller/etree/path.go:417-499 | a candidate is left once or not at all by an attribute filter, and as often as it has matching child elements by a child filter |
| `PathFacts.KeptConcat` | pkg/controller/etree/path.go:417-499 | candidates are judged one after another, whatever else is in the list |
| `PathFacts.FilteredInTurn` | pkg/controller/etree/path.go:118-123 | a chain of filters is one part of it after the other |
| `Pather.Machine.FilterEach` | pkg/controller/etree/path.go:417-499 | an attribute or child filter turns the candidates into what the pure filter keeps, leaves scratch empty, and the two buffers change places without sharing storage |
| `Pather.Machine.FilterPosition` | pkg/controller/etree/path.go:393-404 | only the candidate at the position, counted from either end, is kept, with the same exchange of buffers; it panics exactly at the index -2^63, whose negation overflows |
| `Pather.Machine.ApplySegment` | pkg/controller/etree/path.go:118-123 | a segment is the selector followed by the filters, composed in order, with scratch empty before and after each; it panics exactly if one of its filters has that index |
| `Pather.Machine.Eval` | pkg/controller/etree/path.go:178-195 | a node's first segment is applied, with a panic exactly if that panics; the last segment adds the new candidates to the results, any other queues the candidates with the rest |
| `Pather.Machine.Traverse` | pkg/controller/etree/path.go:167-174 | for every forest and compiled path the machine terminates and changes nothing; it panics exactly if a segment with the index -2^63 is reached, and otherwise returns the first occurrences in the concatenation, over the groups, of the nested flat-maps of their segments |
| `PathFacts.TraversalPanicsIff` | pkg/controller/etree/path.go:178-195 | such a segment is reached exactly if the segments before it in its group lead to some element |
| `PathFacts.MatchesByLevel` | pkg/controller/etree/path.go:167-195 | following a group element by element gives the same list as following it segment by segment, which is what the queue does |
| `PathFacts.MatchesConcat` | pkg/controller/etree/path.go:178-195 | what a group leads to from several elements is listed element after element |
| `PathFacts.DedupedAt` | pkg/controller/etree/path.go:185-190 | an element that is new comes right after all that were found before it |
| `PathOrder.FoundInTurn` | pkg/controller/etree/path.go:167-174 | groups are followed in order: what the first ones find comes first, then what is new |
| `PathRelation.FoundAre` | pkg/controller/etree/path.go:167-195 | without positional filters an element is found, and then once, exactly if some group leads to it by a chain of elements that follow its selectors and pass its filters |
| `Pather.FindElements` | pkg/controller/etree/etree.go:504-507 | a fresh machine panics or finds exactly what the path means, and which of the two is decided as for Traverse |
| `OpenElements.StackIsPath` | pkg/controller/etree/etree.go:377-415 | the stack is the path of open elements: going up from the innermost one meets it entry by entry and then ends, so it holds exactly that element and its ancestors |
| `OpenElements.Popped` | pkg/controller/etree/etree.go:400-401 | closing an element makes its tree the last kid of the one around it |
| `Reading.OverrunIff` | pkg/controller/etree/etree.go:383-391 | reading fails with ErrXML exactly if some token follows a prefix that has one end more than it has starts |
| `Reader.ReadFrom` | pkg/controller/etree/etree.go:377-415 | for every sequence of raw tokens the stack never underflows, the document becomes the tree that the stack machine on values builds, no element has an attribute twice, the forest is well-formed, and the error is ErrXML, the decoder's or none as it should be |
| `Writer.WriteToString` | pkg/controller/etree/etree.go:233-239 | the text appended by the recursive writer is the printed form of the document's children |
| `Writer.WriteTo` | pkg/controller/etree/etree.go:606-642 | writing a token appends the printed form of its tree |
| `Writer.WriteAttr` | pkg/controller/etree/etree.go:705-720 | writing an attribute appends its qualified name and its value, escaped by the table that the settings choose |
| `PrintedForms.TextForm` | pkg/controller/etree/etree.go:684-702 | text keeps its quotes exactly with the setting for canonical text, and never an angle bracket |
| `PrintedForms.AttrForm` | pkg/controller/etree/etree.go:705-720 | an attribute value keeps angle brackets to the right and single quotes exactly with the setting for canonical values, and never a double quote or a bracket to the left |
| `PrintedForms.EndForm` | pkg/controller/etree/etree.go:617-642 | an element is closed in its tag exactly if it has no children and the setting for canonical end tags is off |
| `PrintedForms.WhiteWritten` | pkg/controller/etree/etree.go:606-642 | all white space that is written is content, but for one space in front of each attribute and each instruction body |
| `PrintedForms.NewDocumentForm` | pkg/controller/etree/etree.go:57-64 | a new document has all three settings off |
| `TextTrip.EscapedRead` | pkg/controller/etree/etree.go:684-702 | what the replacement tables write is unescaped to what it was, for every string and table |
| `TokenTrip.DocumentReadBack` | pkg/controller/etree/etree.go:377-415 | reading the raw tokens of a document builds the same document, CData as character data and whitespace flags computed anew |
| `TokenTrip.NormalTwice` | pkg/controller/etree/etree.go:402-404 | a second trip changes nothing more |
| `TextTrip.TreesRead` | pkg/controller/etree/etree.go:606-642 | the text written for printable trees is tokenised into their raw tokens, followed by those of whatever comes after |
| `Returns.TokensReadBack` | pkg/controller/etree/etree.go:606-642 | for the reference tokeniser, with legal characters as in section 2.2 and line endings as in section 2.11 of XML 1.0, the tokens come back exactly when the document holds no carriage return and no character that XML excludes |
| `Returns.DocumentTrip` | pkg/controller/etree/etree.go:377-415 | writing a printable document without such characters and tokenising and reading the text gives the same document, normalised |
| `TopicPath.TopicCompilesIff` | pkg/controller/deployment.go:255 | the path composed from a key compiles to what is meant exactly when the key holds no delimiter and no quote |
| `TopicPath.QuotelessKey` | pkg/controller/deployment.go:255 | for a key without quotes the path is the one that was meant or does not compile, the latter exactly if it holds a delimiter |
| `TopicPath.KeyCompiles` | pkg/controller/deployment.go:255 | a key that holds a delimiter or a quote makes a path that does not compile, unless its part before the first delimiter closes the filter itself |
| `Renaming.OrderIrrelevant` | pkg/controller/deployment.go:254 | replacing key by key gives the same in any two orders exactly when no value is a key that stands for something else, and then gives the simultaneous replacement |
| `Topics.TopicFound` | pkg/controller/deployment.go:255 | the topic path finds exactly the bpmn:serviceTask elements at any depth whose camunda:topic is the key, each once |
| `Topics.ReplaceFound` | pkg/controller/deployment.go:255-260 | the inner loop sets the first topic attribute of every element found, and nothing else |
| `Topics.KeyReplaced` | pkg/controller/deployment.go:255-260 | with unique attribute names that replaces the key by its value in all service tasks and changes nothing else |
| `Deployment.ReplaceKey` | pkg/controller/deployment.go:255-260 | for every key: the error of a path that does not compile, a panic of the traversal, or the topics of exactly the elements that the composed path finds set to the value |
| `Deployment.ReplaceKeys` | pkg/controller/deployment.go:254-261 | the loop does that key by key and ends at the first error |
| `Deployment.FirstBadKey` | pkg/controller/deployment.go:254-262 | the first key whose path does not compile ends the call with the error of that path |
| `TopicTrees.ReplacedTree` | pkg/controller/deployment.go:254-261 | replacing in place is replacing in the tree |
| `TopicTrees.SameForEveryOrder` | pkg/controller/deployment.go:254-261 | all documents come out the same for any two iteration orders exactly when no value is a key that stands for something else, and then as the simultaneous replacement |
| `TopicTrees.TreeBack` | pkg/tests/task_topic_replace_test.go:27-41 | replacing by an injective map and then by its inverse restores a tree exactly when no replacement value was a topic that the map leaves alone |
| `TopicTrip.ReplacementIs` | pkg/controller/deployment.go:254-262 | for a map without chains the text is the same whatever the iteration order |
| `TopicTrip.ThereAndBack` | pkg/tests/task_topic_replace_test.go:27-41 | replacing simultaneously, reading the text, and replacing by the inverse gives the text of the original document |
| `TopicTrip.ReplaceThereAndBack` | pkg/tests/task_topic_replace_test.go:27-41 | two runs of ReplaceTaskTopics, with a map that does not chain and then with its inverse on the text of the first, write the text of the original document whatever the two iteration orders |
| `Renaming.InverseSettled` | pkg/tests/task_topic_replace_test.go:27-41 | a map chains exactly if its inverse does |
| `Renaming.DisjointSettled` | pkg/tests/task_topic_replace_test.go:27-41 | keys and values that are disjoint do not chain, in either direction |
| `Deployment.ReplaceTaskTopics` | pkg/controller/deployment.go:242-263 | from raw tokens to text, for every iteration order: reading errors come out; for all keys there are, the text or the error is that of the loop over the keys on the document read; legal keys give the document with its topics replaced and nothing else changed; any other key makes it fail unless it closes the filter itself |
| `ProcessIds.ProcessesFound` | pkg/controller/deployment.go:278 | the process path finds the bpmn:process elements in breadth-first order |
| `ProcessIds.ProcessesAre` | pkg/controller/deployment.go:278 | those are all of them, at any depth, shallower ones first and equally deep ones in document order |
| `ProcessIds.NumberedIdReads` | pkg/controller/deployment.go:277-286 | an id is "deplid_", the deployment's id with underscores for the three characters, and, from the second process on, an underscore and the number |
| `ProcessIds.NumberedAre` | pkg/controller/deployment.go:278-287 | the i-th process gets that id for i as the value of its first attribute with the key id, if it has one; no other attribute and no other token changes |
| `ProcessIds.IdsDistinct` | pkg/controller/deployment.go:277-287 | processes that have an id get ids that differ pairwise and hold none of the three replaced characters |
| `ProcessIds.NumberedTwice` | pkg/controller/deployment.go:277-287 | numbering again changes nothing |
| `ProcessIds.NumberProcesses` | pkg/controller/deployment.go:277-287 | in place, each process gets the id of its position if it has an id, and nothing else changes |
| `ProcessTrees.DocumentNumbered` | pkg/controller/deployment.go:278-287 | at tree level that is numbering level by level: first all processes of one depth in document order, then those below |
| `ProcessTrees.NumberedTreesTwice` | pkg/controller/deployment.go:277-287 | numbering is idempotent on trees as well |
| `Deployment.SetProcessId` | pkg/controller/deployment.go:265-289 | from raw tokens to text: the reading error, or the text of the document with its processes numbered level by level and nothing else changed |
| `ProcessTrip.NumberTwice` | pkg/controller/deployment.go:265-289 | SetProcessId on the text that it has written writes the same text again |
| `EventLog.IndexDetermined` | pkg/events/repo/repo.go:54-96 | at most one index without empty buckets agrees with a log |
| `EventLog.FiledAre` | pkg/events/repo/repo.go:54-79 | under a device and a service are filed exactly those events of a deployment whose ids its device map and its service map take there, in the order of the deployment, with user and deployment id overwritten and every other field as it was |
| `EventLog.FiledWithout` | pkg/events/repo/repo.go:81-96 | removing a deployment from the log removes exactly its events from every bucket, keeping the order |
| `EventLog.AfterIsSurviving` | pkg/events/repo/repo.go:47-96 | after any run of adds and removes the log is what was added and not removed later, in insertion order |
| `EventRepo.Repo.AddDeployment` | pkg/events/repo/repo.go:47-79 | the index follows the log, and every bucket gains at its end what is filed there for the deployment |
| `EventRepo.Repo.RemoveDeployment` | pkg/events/repo/repo.go:81-96 | for every order of iterating over both maps the rebuilt index follows the log without the deployment: every bucket keeps the events of others, and no empty one is left |
| `EventRepo.Repo.Find` | pkg/events/repo/repo.go:98-108 | exactly the log's events for the device and service, in insertion order |
| `Storage.AscendingOnly` | pkg/metadata/bolt.go:80-84 | the order in which a cursor visits the keys is the only ascending one |
| `Storage.LessEqIs` | pkg/metadata/bolt.go:80-84 | a key is not behind another exactly if it is a beginning of it or has the smaller character where they first differ |
| `Storage.Db.Store` | pkg/metadata/bolt.go:51-62 | the record is stored under its own id, or nothing changes and there is an error |
| `Storage.Db.Remove` | pkg/metadata/bolt.go:64-68 | the key is gone if the transaction goes through, otherwise nothing changes |
| `Storage.ReadAfter` | pkg/metadata/bolt.go:51-148 | after any run of the three changes, reading an id gives the record that was stored last under it, unless a later removal or sync dropped it |
| `Storage.Db.List` | pkg/metadata/bolt.go:126-141 | all records in ascending order of their keys |
| `Storage.Db.EnsureKnownDeployments` | pkg/metadata/bolt.go:70-124 | what is not asked for is deleted and what is left is returned in order; on an error nothing changes, and what is returned is the first part of that |
| `Coherence.CreateKeeps` | pkg/controller/deployment.go:93-101 | a create with a fresh engine id keeps every stored record in step with the index, whether or not it is stored itself |
| `Coherence.UpdateKeeps` | pkg/controller/eventupdate.go:25-53 | an event update keeps every stored record in step with the index, whether or not its transaction goes through |
| `Coherence.DeleteKeepsIff` | pkg/controller/deployment.go:211-218 | a delete notification does exactly if the record is removed, or was not there, or has nothing in the index |
| `Coherence.SyncKeeps` | pkg/controller/deployment.go:154 | a full sync does |
| `Coherence.RestartKeeps` | pkg/controller/controller.go:58-66 | so does a restart, for every stored record, although the index is filled from all of them in one list |
| `Coherence.StepKeeps` | pkg/controller/deployment.go:93-218 | any one handler keeps store and index in step exactly if it is not such a delete |
| `Coherence.RunsStayCoherent` | pkg/controller/controller.go:58-66 | over every run of handlers each stored key is its record's id, and the index entries of that id are, bucket by bucket and in order, those its record gives |
| `Coherence.RunsFromStart` | pkg/controller/controller.go:36-66 | in particular over every such run from an empty store |
| `Coherence.CreateDoes` | pkg/controller/deployment.go:93-101 | a create adds the events to the index whether or not the record can be stored, and touches no other deployment |
| `Coherence.UpdateDoes` | pkg/controller/eventupdate.go:25-53 | an update that is stored gives the record the three new parts, each in its place, and the index the entries that go with them; any other changes nothing |
| `Coherence.DeleteDoes` | pkg/controller/deployment.go:211-218 | after a delete notification the index has nothing of the deployment whatever becomes of its record, and everything else as before |
| `Coherence.RestartDoes` | pkg/controller/controller.go:58-66 | after a restart the index has of every deployment what its record gives, and nothing of those without a record |
| `Coherence.LogOfAdds` | pkg/controller/controller.go:58-66 | it is filled as by calls of AddDeployment in key order |
| `Coherence.DeletedForGood` | pkg/controller/deployment.go:200-219 | once a deployment has been deleted, no run of handlers brings its record or any of its events back |
| `Controller.Ctrl.CreateDeployment` | pkg/controller/deployment.go:81-102 | the record is stored if that works, every bucket gains what is filed there for it in any case, and without storage nothing happens |
| `Controller.Ctrl.UpdateDeploymentEvents` | pkg/controller/eventupdate.go:25-53 | the record gets events, device map and service map and the index their entries, with other deployments as before, and the error is returned exactly if storing fails |
| `Controller.Ctrl.NotifyDeploymentDelete` | pkg/controller/deployment.go:200-219 | the index has nothing of the deployment afterwards, the store neither if the removal works, and other deployments are as before |
| `Controller.Ctrl.SendCurrentDeployments` | pkg/controller/deployment.go:137-159 | exactly the records of requested ids are left, unchanged, and sent on in key order; the index is not touched |
| `Controller.Ctrl.Restart` | pkg/controller/controller.go:58-66 | the index is rebuilt from the stored records in key order |
| `Controller.Ctrl.DeployConditionalEventOperators` | pkg/controller/messageevent.go:24-32 | events reach the index only if there is storage |
| `Controller.Ctrl.RemoveConditionalEventOperators` | pkg/controller/messageevent.go:34-39 | events leave the index only if there is storage |

## Left out

- Go's XML decoder: `Reader` starts from the raw tokens that it delivers. `Lexing` is a reference tokeniser for the
  part of sections 2.2 to 2.8, 2.11 and 3.1 of XML 1.0 that the writer emits, with ASCII names, the five predefined
  entities and quoted attribute values; encodings, character references, document type declarations beyond balanced
  brackets, and namespaces are not part of it. It applies sections 2.2 and 2.11 to the whole text, whereas Go's decoder
  looks at characters and line ends only in text, attribute values and CDATA.
- Texts are sequences of characters, where Go has bytes of UTF-8; only ASCII characters are ever looked for.
- The six token structs are one class with a kind; the type switches become tests of the kind.
- `Element.Child` and `Element.Attr` are sequences, so the sharing of backing arrays by Go slices is not modelled there;
  it is modelled for the two candidate buffers of the path machine, with some growth policy in place of Go's.
- Document.Copy: the embedded element is copied by value, so that its children name a detached element.
- TopicTrip.ReplaceThereAndBack: states the trip for documents whose text can be read back; that is the condition of the
  trip through text, not of the replacement, for which TopicTrees.TreeBack has none. The same holds for
  ProcessTrip.NumberTwice.
- Returns.DocumentTrip: goes one way; a document that is not printable may still be read back by chance.
- PathSpelling.PathReadBack: is about paths whose names and values hold no delimiter; a name that holds, say, a quote
  can still be spelled in a way that compiles. For topic paths both halves are in TopicPath.TopicCompilesIff.
- Deployment.ReplaceTaskTopics: for keys that close the filter themselves the composed path may compile to another path
  than the one meant; what is then replaced is stated in terms of what that path finds, and not spelled out further.
- PathRelation.FoundAre: leaves out positional filters. Their meaning is in PathOrder.PositionIs right behind a selector,
  and in PathOrder.PositionStep behind other filters, where the repeats that child filters make are counted.
- The stack traces that are logged, and the texts of errors other than those of the path compiler and ErrXML; of the
  panic of a positional filter, the index in the message.
- `RemoveAttr`, `SelectElements`, `SelectElement`, `ChildElements`, `SelectAttrValue`: simple scans that the rewritings
  do not use.
- Byte counting in `countReader` and `countWriter`, and failures of the underlying reader and writer.
- The nested maps of the event index are values that are reassigned; that Go updates them in place, and that `Find` hands
  out a slice of the index itself, is not modelled.
- JSON and bbolt: a transaction is atomic, either goes through or changes nothing, and a record is decoded to what was
  encoded. The Badger and MongoDB storages are not part of this model.
- Interleaved handlers: each runs to its end. The MQTT commands that start them run concurrently in Go, and the
  wrapper in `pkg/backend/deployment.go` that passes the device map as the service map is not part of this model.
- Sending to the backend and to the engine: assumed to succeed where it comes before the modelled effects, and without
  effect on store and index.
- Incident handlers, the incident cache, process parameters, notification URLs and the check of the final XML in
  `CreateDeployment`.
- The fields of events and deployments that store and index do not look at are one field `content`.
- The Camunda client, MQTT, Postgres triggers, notifications, the HTTP API and configuration.
