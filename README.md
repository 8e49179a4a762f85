# docscii: DocBook to AsciiDoc, modelled in Dafny

docscii converts a DocBook document (a Publican book) into AsciiDoc. The
document's XML is parsed into a tree of chunks. The tree is copied, titles
and index terms are lifted out of `include` elements, and a recursive walk
translates every node into AsciiDoc text by its kind, under a style: a
table from categories ("monospace", "listitems", "paragraphs", ...) to
DocBook element kinds. Along the way the walk collects entities, keywords,
resources and metadata in an AsciiDoc document. It can also split included
parts into files of their own. The walk's output becomes `master.adoc`, and
every output file is then normalised.

This project models that core:

- `chunk.dfy` (`XmlChunk`) and `chunks.dfy` (`XmlChunks`): the chunk tree.
  A `Chunk` class has `kind`, `attributes`, `parent` and `children` fields
  that the code updates in place. The tree's operations are filter, first,
  last, contains, children, flatten, copy and XML.
  - A ghost `Shape` value records which nodes form a tree and ranks them
    (a child is ranked above its parent). Recursion over the tree ends
    through these ranks.
- `xmltree.dfy` (`XmlTree`): `New`, which builds the tree from a token
  stream.
- `style.dfy` (`Styles`): the `Style` class and the default style.
- `docbook.dfy` (`DocBook`): `findBetween`, `ConditionsMatch` and the line
  loop that reads `publican.cfg`.
- `asciidoc.dfy` (`AsciiDoc`): the `Doc` class, `New` and `Create`.
- `translate_text.dfy` (`TranslateText`), `translate_parts.dfy`
  (`TranslateParts`) and `translate.dfy` (`Translate`): the text helpers
  and the `translate` closure.
  - The closure is the class `Translator`. It holds the walk's register of
    TEXT nodes not yet handled, and the document it writes into.
  - Each arm of the closure's switch is a method.
- `bypass.dfy` (`Bypass`): `bypassBrokenInclusions`.
- `convert.dfy` (`Convert`): `AsciiDocFromDocBook`, which composes style,
  copy, register, bypass, walk and the normaliser.

A panic in the Go code (a nil dereference, an index out of range, an
explicit `panic`) ends the conversion. Here it is the `Failure` of a
`Result`, and it ends the walk too. One `Failure` is not a panic:
`Translate.Translator.LinkArm` fails for a `ulink` with a custom child, a
case Go translates and the model leaves out (see "Left out").

## Model

| member | source | states |
|---|---|---|
| XmlChunk.Chunk.constructor | xmlTree/chunk.go:10-15 | a new node is detached: the given kind, no attributes, no parent, no children |
| XmlChunk.Chunk.Text | xmlTree/chunk.go:17-21 | a TEXT node keeps its character data under the attribute TEXT and nothing else |
| XmlChunk.Chunk.Directive | xmlTree/chunk.go:23-27 | a DIRECTIVE node keeps the directive's text under DIRECTIVE |
| XmlChunk.Chunk.ProcInst | xmlTree/chunk.go:29-34 | a processing instruction node keeps its target and instruction |
| XmlChunk.Chunk.AddChild | xmlTree/chunk.go:59-62 | the child becomes the last child and points back at the new parent; no other field changes |
| XmlChunk.Chunk.AddChildren | xmlTree/chunk.go:53-57 | the children are appended in order, and each points back at the parent |
| XmlChunk.Chunk.IsKind | xmlTree/chunk.go:85-92 | true exactly when the node's kind is one of the kinds, so never for an empty list |
| XmlChunk.Chunk.Ancestors | xmlTree/chunk.go:64-72 | the chain of parents, nearest first, up to a root |
| XmlChunk.AncestorChainShape | xmlTree/chunk.go:64-72 | the chain starts at the parent, each link is the parent of the one before, it ends at a root, and no node repeats |
| XmlChunk.Chunk.IsWithin | xmlTree/chunk.go:74-83 | true exactly when some ancestor has one of the kinds |
| XmlChunk.Chunk.XML | xmlTree/chunk.go:36-51 | the subtree serialised: the start tag with the attributes in the map order taken, the children's XML, the end tag; a TEXT node as its text alone, while a directive or processing instruction is an element like any other, named after its kind and carrying its text as attributes |
| XmlChunk.XmlOfNode | xmlTree/chunk.go:36-51 | an element whose children serialise to `inner` serialises to its start tag, `inner` and its end tag |
| XmlChunks.SelectMembers | xmlTree/chunks.go:13-21 | `Filter` keeps exactly the nodes whose kind is listed |
| XmlChunks.SelectAppend | xmlTree/chunks.go:13-21 | selection distributes over concatenation, so it keeps the nodes' order |
| XmlChunks.FilterPartition | xmlTree/chunks.go:68-76 | `Filter` and `FilterOut` split the list: every node lands in exactly one of them, as often as it occurs |
| XmlChunks.SelectNothingLeft | xmlTree/chunks.go:68-76 | leaving out every kind that occurs leaves nothing |
| XmlChunks.FilterEmptyIff | xmlTree/chunks.go:13-21 | a filter is empty exactly when no node has one of the kinds |
| XmlChunks.First | xmlTree/chunks.go:57-66 | the first node with one of the kinds, or null when there is none |
| XmlChunks.FirstOfFilter | xmlTree/chunks.go:57-66 | `First` is the head of `Filter` |
| XmlChunks.Last | xmlTree/chunks.go:31-44 | the last node with one of the kinds, or null when there is none |
| XmlChunks.LastOfFilter | xmlTree/chunks.go:31-44 | `Last` is the final element of `Filter` |
| XmlChunks.ContainsIffFilter | xmlTree/chunks.go:46-55 | `Contains` holds exactly when `Filter` selects something |
| XmlChunks.Children | xmlTree/chunks.go:23-29 | all children of the nodes, node after node |
| XmlChunks.FlattenUnfold | xmlTree/chunks.go:93-100 | pre-order: the first node, its descendants, then the rest |
| XmlChunks.FlattenAppend | xmlTree/chunks.go:93-100 | flattening a concatenation flattens each part in turn |
| XmlChunks.FlattenMembers | xmlTree/chunks.go:93-100 | every listed node belongs to the tree, and every given node is listed |
| XmlChunks.FlattenCount | xmlTree/chunks.go:93-100 | the listing is exactly as long as the trees have nodes |
| XmlChunks.FlattenDescendantsExactly | xmlTree/chunks.go:93-100 | flattening a node's children lists exactly its proper descendants |
| XmlChunks.FlattenOf | xmlTree/chunks.go:93-100 | the loop returns the pre-order listing |
| XmlChunks.XML | xmlTree/chunks.go:5-11 | the XML of each node, one after another |
| XmlChunks.CopyAttributes | xmlTree/chunks.go:82-84 | copying the attribute map entry by entry gives the same map |
| XmlChunks.Copy | xmlTree/chunks.go:78-91 | fresh nodes with the kinds, attributes and shape of the originals; each copied child points at its copied parent, and each top-level copy keeps its original's parent |
| XmlChunks.CopyShapeOk | xmlTree/chunks.go:78-91 | the copies form a tree of their own, ranked as the originals |
| XmlChunks.CopyShapeLinked | xmlTree/chunks.go:78-91 | in the copies every child points back at the node that holds it, and every parent holds its child |
| XmlChunks.CopyShapeDistinct | xmlTree/chunks.go:78-91 | when no original holds a child twice, neither does any copy |
| XmlTree.AttrMapLastWins | xmlTree/xmlTree.go:45-47 | an attribute key is set exactly when some attribute has that name, and it holds the value of the last one |
| XmlTree.MakeChunk | xmlTree/xmlTree.go:41-53 | the detached node each token kind becomes |
| XmlTree.Stack | xmlTree/xmlTree.go:30-36 | a node is appended under the open element, or to the top-level output when none is open |
| XmlTree.Step | xmlTree/xmlTree.go:37-54 | an end tag closes the innermost open element and fails when none is open; a comment is skipped; any other token becomes a node, and a start tag opens it |
| XmlTree.New | xmlTree/xmlTree.go:27-57 | fails exactly when an end tag comes with no element open; otherwise the top-level nodes, whose pre-order listing is the nodes made, one per token that makes a node, in stream order, linked both ways |
| XmlTree.Unmatched | xmlTree/xmlTree.go:39-40 | an end tag at depth zero breaks the matching of the whole stream |
| XmlTree.EndsMatchedDepth | xmlTree/xmlTree.go:39-40 | a stream whose end tags all match never reaches a negative depth |
| Styles.Style.constructor | style.go:24 | a new style has no categories |
| Styles.Style.Add | style.go:26-28 | the kinds go after the category's entries; every other category is unchanged |
| Styles.AddedEntries | style.go:26-28 | adding appends to the one category and leaves every other alone |
| Styles.Style.AddFromString | style.go:30-32 | the comma-separated pieces of the list, in order, are added |
| Styles.Style.OverrideWith | style.go:34-38 | each category of the other style replaces this style's, and the rest are kept, whatever order the categories are visited in |
| Styles.OverriddenEntries | style.go:34-38 | overriding keeps the categories of both, takes those of the overriding style from it and the rest from the base |
| Styles.OverriddenIdempotent | style.go:34-38 | overriding twice with the same style is overriding once |
| Styles.QuotesMembers | style.go:40-48 | a kind is quoted exactly when one of the five quoting categories lists it |
| Styles.Style.UnQuotedCustom | style.go:50-65 | the custom kinds that no quoting category lists, in order |
| Styles.UnquotedMembers | style.go:50-65 | the unquoted kinds are exactly the custom kinds that are not quoted |
| Styles.UnquotedCustomProperties | style.go:50-65 | the unquoted kinds are custom kinds, none of them quoted, in their order |
| Styles.Default | style.go:5-18 | the default style holds exactly the categories `init` files, with the empty highlight list split into one empty kind |
| Styles.DefaultsListItems | style.go:5-18 | whatever the lists, `init` files exactly its list item kinds under "listitems" |
| Styles.DefaultListItems | style.go:5-18 | the default list item kinds do not include `term` |
| Styles.DefaultsItalicsUnread | style.go:5-48 | the italic kinds are filed under "italic" but read from "italics", so the quoted kinds are the other four lists |
| Styles.DefaultItalicsUnread | style.go:5-48 | in the default style no italic kind is quoted, and the highlight list contributes one empty kind |
| Styles.IntendedItalicsQuoted | style.go:5-48 | filed under "italics", the italic kinds are quoted in their place among the quoting categories |
| DocBook.FindBetweenMissing | docBook/docbook.go:12-21 | the result is "" unless `a` occurs and `b` occurs after that first `a` |
| DocBook.FindBetweenDecomposes | docBook/docbook.go:12-21 | when both delimiters are found, the text is `x + a + r + b + y` with the first `a` after `x`, the first `b` after `r`, and the result is `r` |
| DocBook.FindBetweenOfParts | docBook/docbook.go:12-21 | conversely, any such decomposition of the text determines the result |
| DocBook.ConditionsMatch | docBook/docbook.go:50-64 | true exactly when the chunk's condition is empty or shares a trimmed `;`-separated token with the document's |
| DocBook.EmptyConditionMatches | docBook/docbook.go:51-53 | an empty chunk condition always matches |
| DocBook.MatchesItself | docBook/docbook.go:50-64 | every condition list matches itself |
| DocBook.MatchesSymmetric | docBook/docbook.go:50-64 | apart from the empty-condition case, the test is symmetric |
| DocBook.SingleDocCondition | docBook/docbook.go:50-64 | a document condition without `;` matches exactly the chunks that list it, trimmed |
| DocBook.EmptyTokenMatchesUnset | docBook/docbook.go:50-64 | a chunk condition with an empty token, such as "a;", matches every document without conditions |
| DocBook.ParsePublicanCfg | docBook/docbook.go:166-179 | `None` when no `xml_lang` key was read; otherwise the map the line loop reads |
| DocBook.ConfigKeys | docBook/docbook.go:169-175 | a key is read exactly when some line has a colon and gives that key |
| DocBook.ConfigLastWins | docBook/docbook.go:169-175 | a key's value is the one from the last line that gives the key |
| DocBook.ConfigUnquoted | docBook/docbook.go:170 | no key or value read holds a double quote |
| DocBook.LineWithoutColonIgnored | docBook/docbook.go:172 | a line without a colon leaves the map as it was |
| DocBook.AssignKeys | docBook/docbook.go:169-175 | over any list of entries, a key is assigned exactly when some entry gives it |
| DocBook.AssignLastWins | docBook/docbook.go:169-175 | the value assigned to a key is that of the last entry giving it |
| DocBook.AssignFromEntries | docBook/docbook.go:169-175 | every assigned value comes from an entry for its key |
| DocBook.EntryUnquoted | docBook/docbook.go:170-173 | a line's key and value hold no double quote |
| AsciiDoc.Doc.constructor | asciiDoc/asciidoc.go:41-50 | a new document has the two empty entities `nbsp` and `blank` and nothing else |
| AsciiDoc.Doc.Create | asciiDoc/asciidoc.go:19-39 | the content is stored under the first probed name (`title.adoc`, then `title-1.adoc`, ...) that is free or already holds it, and that name is returned |
| AsciiDoc.SlotUnique | asciiDoc/asciidoc.go:27-36 | the probing stops at exactly one step: the smallest whose name is free or holds the content |
| AsciiDoc.FreeTitleUsed | asciiDoc/asciidoc.go:22-24 | when `title.adoc` is free, `Create` uses it |
| AsciiDoc.CreateKeepsEntries | asciiDoc/asciidoc.go:37 | storing keeps every existing file and adds at most one name |
| AsciiDoc.CreateTwice | asciiDoc/asciidoc.go:19-39 | a second `Create` with the same title and content returns the same name and changes nothing |
| AsciiDoc.NameOfInjective | asciiDoc/asciidoc.go:21-26 | different steps probe different names |
| TranslateText.DecorateIfNotBlank | translate.go:17-22 | nothing for an empty text; otherwise the text between the decorations, from which it can be read back |
| TranslateText.SpaceTrimmings | translate.go:24-36 | the longest runs of ' ' at the start and at the end of the input |
| TranslateText.Settle | translate.go:614-616 | whole passes of `Replace` until the pattern no longer occurs; the result holds no occurrence and is no longer than the input |
| TranslateText.Settled | translate.go:200-202 | the loop computes `Settle` |
| TranslateText.SettleAvoids | translate.go:200-202 | settling creates no occurrence of a text the replacement cannot form |
| TranslateText.MarkerLevels | translate.go:269-282 | the heading markers tell the first five levels apart, and every deeper level gets "." |
| TranslateText.MarkBlankLines | translate.go:354-394 | the scan loop writes every line followed by a newline, and "+" for a blank line while no fence is open |
| TranslateText.ScanLines | translate.go:354-394 | splitting the scan's output at newlines gives back the lines, each blank line outside a fence turned into "+" |
| TranslateText.PipeNeverOpens | translate.go:354-394 | a line starting with '\|' never opens a fence |
| TranslateText.NonBlankKeeps | translate.go:521-540 | the index term list keeps only the non-empty terms, and is empty exactly when every term is |
| TranslateText.IndexTermRoundTrip | translate.go:513-542 | the index macro is empty exactly when every term is, and otherwise the terms can be read back from it when none holds a comma |
| TranslateText.ExpandEntities | translate.go:131-134 | every key's references are replaced by its value, keys taken in the given order |
| TranslateText.ExpandPlain | translate.go:131-134 | text without '&' is left as it is, whatever the key order |
| TranslateText.ExpandAvoids | translate.go:131-134 | the passes create no text that no value can form |
| TranslateText.Normalise | translate.go:604-618 | the normaliser's passes over one file, with the entity keys in the given order |
| TranslateText.NormalisedTidy | translate.go:604-618 | a normalised file has no run of three newlines and no white space at either end |
| TranslateText.NormalisedRewritesEntities | translate.go:611-613 | no reference "&e;" to an entity key `e` is left in a normalised file, whatever the key order |
| TranslateText.NormaliserNotIdempotent | translate.go:605 | "```" normalises to "\` \`\`", which a second run changes to "\` \` \`" |
| TranslateParts.KeyOrder | translate.go:132-137 | every key of the entity map exactly once, in some order |
| TranslateParts.RedefinedKeeps | translate.go:135-138 | a definition stores its text, keeps every other key, and leaves alone a value that does not refer to the entity |
| TranslateParts.RedefinedResolves | translate.go:135-138 | after a definition no other stored value refers to the entity, when neither its name nor its text allow a new reference |
| TranslateParts.MentionsKey | translate.go:108-113 | true exactly when the text contains some entity key; the answer does not depend on the map order |
| TranslateParts.TitleBlockParts | translate.go:81-89 | the title block starts with a blank line, then the anchor when there is an id, then the title behind the prefix; it is never empty |
| TranslateParts.QuotedTextParts | translate.go:100-117 | in every form the space runs stay outside, and the text sits between the quote marks unless the form is bare |
| TranslateParts.TrimmingsRebuild | translate.go:93-116 | when the white space around the input is made of ' ' only, the bare form gives the input back |
| TranslateParts.TextsXml | xmlTree/chunk.go:36-51 | a list of TEXT nodes serialises to their texts |
| TranslateParts.Widest | translate.go:245-250 | the loop finds the largest entry count among the rows |
| TranslateParts.WidestUnique | translate.go:245-250 | the widest count is unique, and 0 exactly when no row has an entry |
| TranslateParts.CutTailEatsPlus | translate.go:413-417 | the written cut turns "Use C++\n" into "Use C+"; the corrected cut keeps it |
| TranslateParts.CutTailShortensShortItem | translate.go:413-421 | the written cut leaves two characters of "C++\n", the corrected one four |
| TranslateParts.ShortItemLines | translate.go:354-417 | the item text "C++" scans to "C++\n", which the written cut shortens to "C+" |
| TranslateParts.CutTailDropsContinuation | translate.go:413-417 | the corrected cut changes a text exactly when it ends in a lone "+" line, and then drops only that "+\n" |
| TranslateParts.StartsPlainly | translate.go:419-426 | with three or more characters, true exactly when one of the first three is a letter or digit; with fewer, it fails with an index out of range unless a '1' is met first |
| TranslateParts.ItemDecorDepth | translate.go:398-412 | the item lead tells the nesting: the term and one more colon than enclosing entries, or one more bullet than enclosing list items |
| TranslateParts.AuthorBlockParts | translate.go:449-466 | the author block opens with the name as a block title; when every part is empty the blank entity stands alone below it, otherwise the non-empty parts follow, one per line, the first not empty |
| TranslateParts.AffiliationLines | translate.go:437-446 | the affiliation loop's output is the non-empty lines between two newlines |
| TranslateParts.TidyKeepsDoubleSpace | translate.go:200-204 | the paragraph tidy turns " \t " into a double space |
| TranslateParts.TidyTabsFirstSingleSpaced | translate.go:200-204 | with the tabs dropped first, the tidied text holds no double space |
| TranslateParts.SubsOfNames | translate.go:164-194 | a literal block asks for each substitution exactly when it was decided on, and omits the `subs` line exactly when none was |
| TranslateParts.EscapeAnglesClean | translate.go:164-194 | no angle bracket survives the escaping of a listing body |
| Translate.Register | translate.go:76-79 | the register holds exactly the given TEXT nodes |
| Translate.QuoteSafe | translate.go:38-50 | true exactly when no node has an include below it or a quote mark in the text below it |
| Translate.SafeBelow | translate.go:40-48 | the loop body for one node decides the same test for that node |
| Translate.Unmarked | translate.go:42-46 | true exactly when none of the quote marks occurs in the text |
| Translate.ListingFlags | translate.go:164-194 | whether a link lies below the block, and whether it is quote-safe |
| Translate.Decide | translate.go:100-117 | the form `quote` picks: passed through, with its tag, outside a literal element or inside safe blocks; escaped when that is allowed, with attributes exactly when an entity is mentioned; bare otherwise |
| Translate.ItemFinish | translate.go:413-429 | the scanned item text is dropped when two characters or fewer; otherwise a final "+\n" is cut as written and the text put behind the lead, with a blank first line when it does not start plainly; it succeeds whenever the text is dropped or keeps three characters after the cut, and when fewer are left it fails exactly when none of the characters left (one or two) is '1', the out-of-range read |
| Translate.TermAsItemReachesItself | translate.go:334-400 | with `term` among the list-item kinds, a term inside a list entry is taken by the list item arm, and the `term` siblings that arm translates include the term itself |
| Translate.ItemFinishRetested | translate.go:413-429 | with the corrected cut and the length tested after it, the finish never fails; it drops a text of two characters or fewer and otherwise puts it behind the lead, with a blank first line when it does not start plainly |
| Translate.Redefining | translate.go:135-138 | the loop over the stored entities computes the redefinition |
| Translate.Tidied | translate.go:200-204 | the three rewrites compute the paragraph tidy |
| Translate.PiecesSnoc | translate.go:197-208 | one more child's piece keeps the paragraph's pieces matched to their raw texts |
| Translate.Span | translate.go:238-252 | the span prefix is empty unless the entry is the only one in its row; then it is the table group's, and the entry fails when no table group lies above it |
| Translate.TableSpan | translate.go:240-251 | a lone entry's span is the widest row's entry count in its outermost table group, and '+' |
| Translate.GroupAbove | translate.go:240 | the outermost table group above the node, or null |
| Translate.GroupSpan | translate.go:245-251 | the widest row count below the table group, and '+' |
| Translate.RowsBelow | translate.go:245 | the rows among the descendants of the table group |
| Translate.DescendantsBelow | translate.go:245 | the flattened children are the node's proper descendants, in pre-order |
| Translate.Translator.constructor | translate.go:74-79 | the walk starts with an empty document (the two predefined entities only), the given register and style, over a tree linked both ways |
| Translate.Translator.Translate | translate.go:122-600 | each node in turn, outputs concatenated; a panic ends the walk; every node visited is left handled; a list of TEXT nodes gives back their texts and leaves the document alone; the register only shrinks and the document only grows |
| Translate.Translator.Node | translate.go:124-129 | an excluded node outputs nothing and leaves the register with its subtree; a TEXT node outputs its text and leaves the register |
| Translate.Translator.Exclude | translate.go:592-597 | an excluded node and all its descendants leave the register, and nothing else does |
| Translate.Translator.Forget | translate.go:262-264 | the flattened subtrees leave the register, and nothing else does |
| Translate.Translator.DispatchA | translate.go:130-222 | a TEXT node outputs its TEXT attribute and leaves the register; every arm keeps the tree and lets the document only grow |
| Translate.Translator.DispatchB | translate.go:223-324 | the arms from tables to admonitions keep the tree, shrink the register and grow the document |
| Translate.Translator.DispatchC | translate.go:325-512 | the arms from bibliography details to the quoting kinds keep the tree, shrink the register and grow the document |
| Translate.Translator.DispatchD | translate.go:513-590 | the arms from index terms to the default keep the tree, shrink the register and grow the document |
| Translate.Translator.Kids | translate.go:145 | the chosen children translated; all the children of a node with only TEXT children give back their texts |
| Translate.Translator.Deep | translate.go:325-333 | the chosen descendants translated; for TEXT nodes, the texts of those included |
| Translate.Translator.Pick | translate.go:329 | the descendants of the chosen children, filtered by kind |
| Translate.Translator.Each | translate.go:197-208 | one output per chosen child |
| Translate.Translator.One | translate.go:581-582 | one child translated; a TEXT child gives its text when admitted, nothing otherwise |
| Translate.Translator.DecorateTitle | translate.go:81-89 | the title block of the node: a blank line, the anchor when it has an id, the translated title behind the prefix |
| Translate.Translator.QuoteArm | translate.go:482-511 | `nested` is whether an ancestor has a kind of the arm's category; nested, the children pass through, their texts when only text lies below; otherwise the output is `Quote`'s: nothing for a blank text, else the space runs outside and the trimmed text quoted with the arm's mark |
| Translate.Translator.Quote | translate.go:90-120 | nothing when the translated text is blank; otherwise the space runs outside and the trimmed text in the form `Decide` picks |
| Translate.Translator.QuoteMode | translate.go:96-99 | the decisions `quote` takes, from the node's ancestors |
| Translate.Translator.InLiteral | translate.go:96-98 | whether the node is inside a literal element, inside a literal block, and whether every enclosing block is safe |
| Translate.Translator.InQuoting | translate.go:99 | whether the node is inside a quoting element, and inside an unquoted custom element |
| Translate.Translator.BlocksSafe | translate.go:98 | whether every enclosing literal block is quote-safe |
| Translate.Translator.EntityArm | translate.go:130-138 | the contents, with the known entities expanded, are stored under the key after every stored value has had its references to the key replaced; with only text below, the contents are that text and the entities before are those stored when the arm began |
| Translate.Translator.Redefine | translate.go:135-138 | the stored entities become their redefinition |
| Translate.Translator.ListArm | translate.go:143-145 | the output starts with the title block on a line of its own |
| Translate.Translator.LinkArm | translate.go:146-160 | a link without a custom child: the link macro around the translated children |
| Translate.Translator.ScreenArm | translate.go:164-194 | a listing block without a parent fails; otherwise a delimited block whose `subs` line follows what it asks for, and whose body is escaped when it asks for quotes or macros |
| Translate.Translator.ScreenBodyClean | translate.go:164-194 | a body that asks for quotes or macros holds no angle bracket |
| Translate.Translator.ParagraphArm | translate.go:195-210 | the children one by one, each non-literal one tidied, the whole trimmed between newlines |
| Translate.Translator.ChildPiece | translate.go:197-208 | one child translated, and tidied unless it is of a literal kind |
| Translate.Translator.ImageDataArm | translate.go:214-218 | without `fileref` nothing happens; with it the path is output and the resource copied under its cleaned name |
| Translate.Translator.MediaArm | translate.go:219-222 | an image macro: the lead, the translated image objects, "[", the translated text objects, "]" and the tail |
| Translate.Translator.TableArm | translate.go:223-234 | the header option when the translated head is not empty, then the head, the body and the foot between two "\|===" lines |
| Translate.Translator.EntryArm | translate.go:237-254 | an entry without a parent or table group fails; otherwise its span prefix, '\|' and its trimmed text |
| Translate.Translator.BookInfoArm | translate.go:257-266 | the trimmed title behind "= " when not blank, a newline, then the other children translated; the metadata children are appended to the document's metadata, after what it held before them, and leave the register with their subtrees |
| Translate.Translator.Record | translate.go:260-264 | the metadata children are appended to the document's metadata and leave the register with their subtrees |
| Translate.Translator.HeadingMarker | translate.go:270-281 | the marker for the node's level: one '=' more per titled ancestor |
| Translate.MarkerOf | translate.go:270-280 | the count of '=' the loop builds, with a space or cut to ".", is the marker of the level |
| Translate.Translator.SectionArm | translate.go:269-282 | the title block behind the heading marker, then the other children |
| Translate.Translator.IncludeArm | translate.go:283-308 | no `href`: nothing, and the document untouched; inside media: the children translated, their texts when only text lies below; otherwise what `IncludedAs` says, and nothing, with no stored file named, when every child is text and the inclusion is not a text inclusion whose resource exists; the include line stands between "\n--\n" inside a list item that is not literal and between newlines elsewhere |
| Translate.Translator.IncludeFile | translate.go:290-306 | `IncludedAs`: a text inclusion whose resource exists copies it under its cleaned key and outputs the include line for `href`; any other inclusion stores its translated contents exactly when they are not empty, and then outputs the include line for the new name, whose file holds the contents and which is one of the names `Create` probes for `href` without its extension; when every child is text, such an inclusion and a text inclusion whose resource is missing output nothing and name no stored file |
| Translate.Translator.Fallback | translate.go:296 | the fallback children translated; nothing, when every child is text |
| Translate.Translator.Contents | translate.go:300 | the children other than the fallback and TEXT ones translated; nothing, when every child is text |
| Translate.Translator.IncludePlace | translate.go:285-289 | the include line's surround is "\n--\n" exactly when the node is inside a list item and not inside a literal element, "\n" otherwise; `media` is true exactly when the node lies inside a media object |
| Translate.Translator.CopyResource | translate.go:292-294 | the resource under the key is copied into the document, and nothing else changes |
| Translate.Translator.Store | translate.go:300-302 | the content is stored under the name `Create` picks |
| Translate.Translator.AdmonitionArm | translate.go:314-324 | a delimited block, one '=' longer per enclosing example, after the title block and, for an admonition, its upper-cased kind as the style; the body is the translation of the children other than the title and TEXT ones, and the same delimiter closes the block |
| Translate.Translator.CorpAuthorArm | translate.go:325-333 | the trimmed translation of the children: after ", " in a bibliography entry, between "\n." and a blank entity line in an author group, bare elsewhere, and nothing when blank; with only text below, that text |
| Translate.Translator.ListItemArm | translate.go:334-430 | a list item without a parent fails; otherwise its text scanned, with the written cut of a final "+\n", behind the lead of its term or bullets |
| Translate.Translator.ItemText | translate.go:336-352 | the trimmed translation of every child of a member or contrib, and of every child but the TEXT ones of any other item; with only text children, their trimmed texts for a member or contrib and nothing for any other item |
| Translate.Translator.ItemTerm | translate.go:400 | nothing, with the document untouched, when the item has no `term` siblings; otherwise only the walk's invariants (the register shrinks, the document grows) |
| Translate.Translator.RevisionArm | translate.go:431-436 | the line "\nN:: D, A" of the revision numbers and dates below and the authors, then a newline and the description |
| Translate.Translator.AffiliationArm | translate.go:437-446 | the organisation name and division that are not empty, joined by a newline, between two newlines; nothing when both are empty |
| Translate.Translator.AuthorArm | translate.go:447-473 | in an author group the `AuthorBlock` of the name, affiliation, e-mail and contribution; elsewhere "first last (email)" |
| Translate.Translator.GroupAuthor | translate.go:449-466 | the `AuthorBlock` of the translated first name, surname, affiliation, e-mail and contribution |
| Translate.Translator.TermArm | translate.go:474-480 | a term without a parent fails; otherwise the term on a line, after an anchor carrying its plain text when the parent has an id: exactly the anchor (when the parent has an id) followed by the trimmed translation of the children with every newline removed |
| Translate.Translator.IndexTermArm | translate.go:513-542 | the index macro of the plain texts of the primary, secondary, tertiary, see and seealso children |
| Translate.Translator.Term | translate.go:515-519 | one index term: the trimmed plain text below the children of that kind |
| Translate.Translator.MenuArm | translate.go:553-558 | "menu:", the trimmed translated menus, then between brackets the other children, one output each, joined by " > " |
| Translate.Translator.KeywordArm | translate.go:575-579 | nothing is output, and the trimmed text joins the keyword set |
| Translate.Translator.DefaultArm | translate.go:580-590 | the outputs of the children one after another, one per child, each TEXT child giving its trimmed text |
| Bypass.WithoutMembers | translate.go:55-61 | leaving out a node keeps exactly the other siblings, in order; one occurrence costs one entry |
| Bypass.WithoutCounts | translate.go:55-61 | leaving out a node removes every occurrence of it and nothing else |
| Bypass.WithoutDistinct | translate.go:55-61 | leaving out a node from siblings without repeats leaves none |
| Bypass.Siblings | translate.go:55-60 | the loop builds the siblings other than the node |
| Bypass.MoveKeepsNodes | translate.go:61-62 | moving the node from its parent to the end of its grandparent loses and duplicates nothing |
| Bypass.MovedDownLinked | translate.go:61-62 | after the move every child points back at the node that holds it |
| Bypass.MovedUpLinked | translate.go:61-62 | after the move every node with a parent is among its parent's children |
| Bypass.MovedMirrors | translate.go:61-62 | the heap's children follow the moved tree |
| Bypass.MovedRanked | translate.go:61-62 | after the move every parent is ranked below its child |
| Bypass.MovedOk | translate.go:61-62 | moving a child to a node ranked below its parent keeps the ranks rising from parent to child |
| Bypass.MovedKidsDistinct | translate.go:61-62 | when the grandparent does not already hold the node, no node holds a child twice after the move |
| Bypass.ParentIs | translate.go:54 | in a tree linked both ways, a map of parents that agrees with the shape holds each node's parent pointer |
| Bypass.SnapOf | translate.go:54 | such a map holds the parent pointer of every node |
| Bypass.MovedLinkedBy | translate.go:61-62 | moving the node to its grandparent in the shape moves it in the map of parents |
| Bypass.MovedHolders | translate.go:61-62 | after the move each child has its holder as parent in the updated map |
| Bypass.MovedHeld | translate.go:61-62 | after the move each node's parent in the updated map ranks below it and holds it |
| Bypass.RisesByOne | translate.go:54-62 | lifting a title or index term from its include is a rise of that node alone |
| Bypass.RisesCompose | translate.go:52-66 | two rises over successive sets of visited nodes are one rise: an include never moves, so a node rises to the parent its include had at the start |
| Bypass.RisesWiden | translate.go:52-66 | a rise of an unvisited node alone is a rise of the visited set grown by that node |
| Bypass.ClosedAfterLift | translate.go:54-64 | after a lift, the visited nodes, with and without the lifted node, still hold the parents of their members |
| Bypass.VisitReached | translate.go:53-65 | a visit reaches the node and what the walk of its children reaches |
| Bypass.ReachedStep | translate.go:53-65 | a turn of the loop keeps what earlier turns reached |
| Bypass.UnvisitedStay | translate.go:53-65 | a later node of the list is not reached by the visit of an earlier one |
| Bypass.WalkStep | translate.go:53-65 | a turn of the loop keeps the account of rises and reached nodes, and leaves the later nodes unvisited |
| Bypass.KidsBelow | translate.go:64 | the children of a visited node are new to the walk, have it as parent and hold no repeats |
| Bypass.Lift | translate.go:55-62 | the node leaves its parent, the others kept in order, and is appended last to its grandparent; with no grandparent it fails after the parent lost it; on success the map of parents follows with only the node's entry changed |
| Bypass.LiftOne | translate.go:54-63 | a title or index term under an include goes up to the include's parent, and no other node moves; fails exactly when the test or the move dereferences nil; the map of parents rises by the node alone |
| Bypass.LiftOneGuarded | translate.go:54-63 | the corrected test: never fails, skips a node whose move would dereference nil, and otherwise moves as `LiftOne` |
| Bypass.Visit | translate.go:53-65 | one turn of the loop, the lift and then the node's children as they are after it: it visits the node and nodes below it, each once; only titles and index terms among them change parent, each from its include to that include's parent |
| Bypass.BypassBrokenInclusions | translate.go:52-66 | the tree stays linked both ways, with the same nodes and ranks; every node is visited once; the only nodes that change parent are visited titles and index terms, each moving from its include to the parent that include had at the call |
| Bypass.VisitEach | translate.go:52-66 | the loop over the given nodes: the tree stays linked both ways with the same nodes and ranks, every given node and the nodes below it are visited once, and every node that changed parent rose from an include to that include's parent |
| Convert.StyledLastWins | translate.go:69-73 | a later style wins: the categories the last style sets come from it, the others from the styles before |
| Convert.StyledKeeps | translate.go:69-73 | a category no overriding style sets keeps the base's entries |
| Convert.OverriddenEmpty | translate.go:69-70 | overriding a new, empty style with the default gives the default |
| Convert.DefaultAdmitsTerms | translate.go:69-73 | over the default style, styles that leave the list items alone never count `term` as a list item |
| Convert.BuildStyle | translate.go:69-73 | a new style, overridden by the default and then by each given style in turn |
| Convert.OverrideAll | translate.go:71-73 | each given style overrides the configuration in turn |
| Convert.CopyTree | translate.go:75 | fresh copies of the document's trees, linked both ways, with the same kinds |
| Convert.TextRegister | translate.go:76-79 | the register holds exactly the TEXT nodes among the flattened copies |
| TranslateParts.NormaliseOne | translate.go:605-618 | one file replaced by its normalised form under some order of the entity names (`NormalisedFrom`), the other files left alone |
| TranslateParts.NormaliseAll | translate.go:604-619 | the loop over the files: every file normalised under an entity order of its own and so tidy (`NormalisedFromTidy`), no file name added or lost |
| Convert.NormaliseFiles | translate.go:604-619 | every file normalised and tidy; the file names, entities, keywords, resources and metadata are unchanged |
| Convert.LiftAndWalk | translate.go:121-602 | titles and index terms lifted out of includes, then the walk; on success a new document holding `master.adoc` and the two predefined entities, whose resources come from the source's |
| Convert.Walk | translate.go:122-602 | a translator over the copies writes `master.adoc` into a new document |
| Convert.AsciiDocFromDocBook | translate.go:68-79 | the whole conversion: on success a new document holding `master.adoc`, every file tidy, the two predefined entities present, every resource taken from the source's |

## Left out

- File I/O is not modelled: `loadData` and `FindDocRoot` in docBook/docbook.go, `Doc.Write` in asciiDoc/asciidoc.go, main.go and file/file.go. The document's tree, its `publican.cfg` settings and its resources are parameters.
- XML tokenizing (Go's `encoding/xml`, called from xmlTree/xmlTree.go:9-25) is not modelled. `XmlTree.New` takes the token stream as a parameter.
- Console output is left out: the "Unknown:" line of the default arm (translate.go:586) and the "Unprocessed:" report over the remaining register (translate.go:620-625). The register is modelled, and what remains in it is what would be reported.
- `filepath.Clean` and the extension stripping are functions given as parameters (`clean`, `stripExt`).
- Go's map iteration order is a choice the model leaves open. The normaliser's entity order is any `KeyOrder`, `OverrideWith` visits categories by `:|`, and each node's attribute order in `XML` is a recorded choice. Contracts hold for every order.
- Go strings are byte strings, the model's are character strings. They differ only outside ASCII:
  - TranslateText.MarkBlankLines: the four-byte fence test (`len(l)`) counts characters here, so a line such as "-é-" closes a fence in Go but not here.
  - TranslateParts.StartsPlainly: `p[0]`, `p[1]` and `p[2]` are the first three characters here, not bytes, so an item text such as "ééa" starts plainly here but not in Go.
  - Strings.ToUpper: only ASCII letters are upper-cased; Go's `strings.ToUpper` is Unicode-aware. It only affects admonition kinds from a custom style.
- Panics are modelled as `Failure`. The panic message is not part of any contract.
- Translate.Translator.LinkArm: a `ulink` with a custom child is translated in Go through a synthetic node outside the tree (translate.go:148-157). Here it is a `Failure`, so its output is not modelled.
- Translate.Translator.EntityArm: `before` is tied to the entities stored when the arm began only when the subtree has nothing but text below it. A subtree with an ENTITY node of its own may store entities first.
- TranslateText.NormalisedRewritesEntities: it states that every "&e;" is gone from a normalised file, not that each one became "{e}". It requires that the key is a plain name and that no key holds '&'.
- Convert.NormaliseFiles: each file is stated to be normalised under some order of the entity names, and tidy. It does not state that all files share one order; Go takes a fresh map order for each file, as the model does.
- Translate.Translator.IncludeFile: `stored` is the translation of the children other than the fallback and TEXT ones, and `translate` has no specification function, so it is tied to the input only when every child is text (then nothing is stored and the output is empty). The contract states that such an inclusion stores exactly when `stored` is not empty, under a name probed from `href`.
- Translate.Translator.constructor: the walk requires that the style does not count `term` as a list item. Otherwise a term would be translated from within its own list item with no measure decreasing. `Convert.DefaultAdmitsTerms` shows the default style, and any style that leaves the list items alone, meet this. On such a style Go's recursion has no bound and the program aborts with a fatal stack overflow (see "Findings").
- XmlChunks.Copy requires that every child in the original tree points back at its parent. Go's `Copy` does not need this, because `AddChildren` rewires every copied child. It holds at the only call, `Convert.CopyTree`, where the tree comes from `XmlTree.New`, which links both ways.
- Translate.Translator.DispatchB, DispatchC and DispatchD state the walk's invariants for whichever arm they choose: the tree unchanged, the register only shrinking, the document only growing. The output text is stated by each arm's own method; the short arms written inline in the dispatchers (footnote, bridgehead, row, quote, keycap and the like) have no output contract.
- Translate.Translator.ItemTerm: its output text is stated only when the item has no `term` siblings (nothing, the document untouched). A term is an element, not a TEXT node, and `translate` has no specification function, so the translated terms are not tied to the input.
- The translated parts of an arm's output (a title, the image objects, an author's e-mail) are ghost results of the arm's method. Their link to the input nodes is stated only where those nodes are text, since `translate` has no specification function of its own.

## Findings

| source | as written | input that shows it | evidently intended | confidence | as-written member | corrected member |
|---|---|---|---|---|---|---|
| translate.go:413-417 | a final "+\n" is cut from any list item text longer than two characters | `<listitem><para>Use C++</para></listitem>` becomes "Use C+" | cut only a lone "+" line, the dangling continuation the scan adds | not executed | TranslateParts.CutTailEatsPlus | TranslateParts.CutTailDropsContinuation |
| translate.go:413-421 | after the cut, the text may be two characters long, and `p[2]` is read | the item text "C++" is cut to "C+", then `p[2]` is out of range: panic | the length tested after the cut, so the finish never fails | not executed | TranslateParts.ShortItemLines | Translate.ItemFinishRetested |
| translate.go:200-203 | spaces are collapsed before tabs are dropped | a paragraph text " \t " tidies to a double space | no double space in a tidied paragraph | not executed | TranslateParts.TidyKeepsDoubleSpace | TranslateParts.TidyTabsFirstSingleSpaced |
| style.go:15 | the default italic kinds are filed under "italic", but `allQuotes` reads "italics" (style.go:44) | `<firstterm>T</firstterm>` is never put between '_' | italic kinds rendered between '_' | not executed | Styles.DefaultItalicsUnread | Styles.IntendedItalicsQuoted |
| translate.go:54-62 | the lift dereferences the parent of the node and of its include without a nil test | a top-level `<title>`, or a top-level `<include>` with a title child: nil dereference, panic | leave such a node where it is | not executed | Bypass.LiftOne | Bypass.LiftOneGuarded |
| translate.go:334-400 | the list item arm comes before the `term` arm in the switch and translates the `term` siblings of the node | a style whose "listitems" lists `term`, and a `<varlistentry><term>T</term>…</varlistentry>`: the term's own translation reaches itself, the recursion has no bound, and Go aborts with a fatal stack overflow | a term is never taken as a list item | not executed | Translate.TermAsItemReachesItself | Convert.DefaultAdmitsTerms |

The walk follows the code as written: `Translate.ItemFinish` and
`Translate.Translator.ListItemArm` use the written cut and test the length
before it, and the default style files its italic kinds under "italic".
`Translate.ItemFinishRetested` is the item finish with both corrections. The corrected members stand
beside them, with their intended properties proved. The walk itself admits
only styles that leave `term` out of the list items, which the default style
does (`Convert.DefaultAdmitsTerms`).
