# A verified model of a Slack-resident local agent

The modelled program is a host that runs a language-model agent for a Slack
workspace. Its deterministic core decides what is shown, loaded, kept and
counted. This project models that core in Dafny and proves what it promises,
for every input and over every run.

The modules follow the program's components; `Basics` holds what they share.

- **Block Kit templates** (`Contract`, `Placeholder`, `Render`, `Printed`, `Layout`,
  `Evaluator`, `LayoutLaws`, `Views`, `Checked`, `Blocks`, `Startup`, `StartupCases`,
  `Outputs`, `Submission`, `Engine`). A typed template language with a static checker,
  an evaluator and two string renderers. What a text prints and what a layout shows
  and may hold is stated by the written template and the values alone. A template is
  checked and rendered once with representative values at startup and trusted from
  then on; the main theorems say exactly when that trust is justified: when the layout
  and the fallback of a view render, and when the blocks of the rendered layout keep
  to the limit of their surface and repeat no ID. Modal submissions are decoded
  through a one-to-one contract.
- **Mrkdwn escaping** (`Text`, `Escape`, `EscapeLaws`, `ControlTokens`, `Readings`,
  `Fences`). Slack control tokens are rewritten outside code. Every line has one
  reading as code spans, tokens and other characters, and fences are compared with
  CommonMark 0.31.
- **Workflows** (`Workflow`, `WorkflowLoader`, `WorkflowTree`, `WorkflowPositions`,
  `WorkflowRules`, `WorkflowBuild`, `WorkflowAgents`, `WorkflowPrepare`). A
  depth-first loader over files, walks that have no guard of their own and end only
  because of what the loader established, validation, and a builder that must succeed
  on everything validation passed. What is loaded and built is stated position by
  position.
- **Configuration documents** (`YamlTree`, `YamlLaws`, `YamlLooks`, `ConfigSchema`,
  `YamlPaths`, `YamlNode`, `YamlClone`, `YamlMerge`). Reading a document over defaults
  and writing typed values back form a lens over ordered trees, edited in place; nodes
  are copied as graphs with shared and cyclic alias edges. What is read and what is
  written at a path is decided for the whole schema.
- **Conversation ledgers** (`Turns`, `TurnClassifier`, `Protocol`, `ProtocolRules`).
  Contents are cut into turns, the function-call protocol is scanned and its rules are
  stated over the parts by position, and the active suffix starts at the oldest open
  invocation.
- **Knowledge cards** (`Cards`, `FrameCards`, `FrameFit`). Whole-card selection under
  a budget: the plain greedy form in shared spare capacity, and a form that calls its
  counter at most ten times.
- **Durable state machines** (`Progress`, `ProgressLaws`, `ProgressHistory`, `Claims`,
  `Jobs`). Live progress with bounded tool accounting, the life of a knowledge claim,
  job and activation transitions, each over all runs.

Code that works on state is a class or a method with loops, proved against a
specification function; the laws are lemmas about those functions. What the program
takes from libraries or the outside (a file system, case mapping, time formats, JSON
encoding, token counters, text policies) is a parameter.

## What the proofs found

- An action may carry a text that is sent through the string renderer a second time
  (internal/blockkit/region.go:38-48). A carried text with a placeholder marker or a
  blocked fragment can make an accepted template fail at run time; a template and a
  value are given in `StartupCases.AcceptedCanFail`, the exact condition in
  `Startup.AcceptedCompilesIff`.
- Startup renders each list with one pair, and each long text with two chunks at most.
  A view with more items can exceed the 50 blocks of a message or the 100 of a modal,
  or repeat a fixed `block_id` (internal/blockkit/verify.go:45-51 and 154-161), so an
  accepted template can fail without any action: `StartupCases.LongListFails`, with the
  exact condition in `Startup.AcceptedPassesIff`.
- A token that is a date, or a labelled user, subteam or channel, goes on up to the
  first `>`, so it can swallow another control token, which stays live after one pass
  (internal/blockkit/escape.go:8-16). `EscapeLaws.SwallowsIff` and
  `EscapeLaws.NestedTokenSurvives` give the inputs, `EscapeLaws.LineStableIff` the exact
  condition for a second pass to find nothing.
- A closing fence may be followed by any Unicode blanks, as `strings.TrimSpace` decides
  (internal/blockkit/escape.go:178), where section 4.5 of CommonMark 0.31 allows spaces
  and tabs only. A line of three backticks and a no-break space closes too early
  (`Fences.ClosesTooEarly`); `Fences.CloserIff` and `Fences.TextFollowsIff` say exactly
  when line and text agree with the section.
- `snapshot_budget_tokens` and `retention` are typed configuration fields
  (internal/config/config.go:210, internal/config/config.go:266) that the schema at
  internal/config/yaml.go:144-154 does not list. A document cannot set them, and a
  change is written only into a document that lacks their whole section
  (`YamlPaths.StuckFields`); `YamlPaths.ReadIff` and `YamlPaths.WrittenIff` are the exact
  conditions for any path.
- A turn drops the error of its cost (internal/domain/compaction.go:336), so the turn
  costs of a ledger with a part that does not encode do not add up to its cost:
  `TurnClassifier.MixedDoesNotAddUp`, with the exact condition in `TurnClassifier.TotalIff`.
- The minimal variant of startup is implied by the maximal one
  (`Startup.MinimalIsImplied`).
- In claim admission the branches for root, worker and observation sources, and for
  sources that cannot verify, never decide: the scope rules already force a human or
  decision source (`Claims.AdmittedIff`).

## Model

| member | source | states |
|---|---|---|
| Text.CountRun | internal/blockkit/escape.go:192-198 | counts exactly the maximal run of one character at a position |
| Escape.EscapeMrkdwn | internal/blockkit/escape.go:53-79 | the loop computes the escaped text: every `&`, `<`, `>` becomes an entity, and a control token keeps its closing `>` raw when neutralized |
| Escape.HasClosingBacktickRun | internal/blockkit/escape.go:141-154 | the index loop finds a closing run exactly when the specification does |
| Escape.LeadingFenceIndent | internal/blockkit/escape.go:181-190 | the indent of at most three spaces, or none |
| Escape.ParseFenceOpen | internal/blockkit/escape.go:156-170 | the fence a line opens: three or more backticks or tildes after the indent, and no backtick in the info string of a backtick fence |
| Escape.IsFenceClose | internal/blockkit/escape.go:172-179 | closes exactly on the same marker, at least as long, followed by blanks alone, in the sense of `strings.TrimSpace` |
| Escape.SplitLinesKeepEnd | internal/blockkit/escape.go:200-217 | the slicing loop yields the lines of the text |
| EscapeLaws.LinesReassemble | internal/blockkit/escape.go:200-217 | the lines reassemble to the text; a newline ends every line but perhaps the last, and stands nowhere else |
| EscapeLaws.ClosingRunIff | internal/blockkit/escape.go:141-154 | a closing run exists exactly when some maximal backtick run has the given length |
| EscapeLaws.EscapeRoundTrip | internal/blockkit/escape.go:53-79 | reading the entities back undoes escaping without neutralizing |
| Escape.NeutralizeLine | internal/blockkit/escape.go:109-139 | one line equals its specification, and no code span is ever open at a line end (`inlineTicks` is 0 when the line is done) |
| Escape.NeutralizeUnsafeControls | internal/blockkit/escape.go:81-107 | the line loop with its active fence computes the specified text: fenced lines verbatim, other lines with only the marked characters replaced |
| EscapeLaws.MarksAreTokens | internal/blockkit/escape.go:109-139 | every replaced character starts a control token |
| EscapeLaws.MarksAreMarked | internal/blockkit/escape.go:109-139 | only a `<` is ever replaced |
| EscapeLaws.ControlLenExtends | internal/blockkit/escape.go:8-16 | a token match depends on the text up to its first `>` alone |
| EscapeLaws.CodeSpanCopied | internal/blockkit/escape.go:109-139 | a code span is copied unchanged and scanning resumes outside code (CommonMark 0.31, section 6.1) |
| EscapeLaws.UnmatchedRunIsLiteral | internal/blockkit/escape.go:113-125 | a backtick run without a closing run of its length is literal text |
| EscapeLaws.UnchangedIffClean | internal/blockkit/escape.go:109-139 | a line is returned unchanged exactly when it holds no control token outside code |
| EscapeLaws.LineStableIff | internal/blockkit/escape.go:109-139 | a second pass over a line is the identity, and no token is left outside code, exactly when every token start was replaced rather than swallowed by an earlier token |
| EscapeLaws.SecondPassIff | internal/blockkit/escape.go:81-107 | neutralizing a whole text, fences included, twice equals once exactly when its unfenced lines are stable |
| EscapeLaws.SimpleTextIsStable | internal/blockkit/escape.go:81-139 | texts whose rewritten tokens hold no second `<` and no backtick are stable |
| EscapeLaws.SwallowsIff | internal/blockkit/escape.go:8-16 | another `<` fits inside a token exactly behind the beginning of a date or the label of a user, subteam or channel |
| EscapeLaws.NestedTokenSurvives | internal/blockkit/escape.go:8-16 | a counterexample family: behind such a beginning any other token is swallowed, which the first pass leaves live |
| EscapeLaws.LabelSwallowsChannel | internal/blockkit/escape.go:8-16 | one of them: a user mention whose label is a channel broadcast, which stays live |
| Readings.ReadingExists | internal/blockkit/escape.go:109-154 | every line reads as code spans closed by the first run of their length, lone backtick runs, control tokens and other characters |
| Readings.ReadingUnique | internal/blockkit/escape.go:109-154 | it has one reading only |
| Readings.ReadingMarks | internal/blockkit/escape.go:109-139 | the scanner replaces the first character of each token of the reading and nothing else |
| Readings.MarksIff | internal/blockkit/escape.go:81-139 | over a whole text the replaced positions are exactly the beginnings of tokens outside code on lines that are neither fenced nor open a fence |
| Fences.OpenerIff | internal/blockkit/escape.go:156-170 | a line opens a fence exactly when it begins a fenced code block by section 4.5 of CommonMark 0.31 |
| Fences.CloserIff | internal/blockkit/escape.go:172-179 | every closing fence of that section closes; the two differ exactly on a long enough fence followed by blanks of which one is neither a space nor a tab |
| Fences.FollowsIff | internal/blockkit/escape.go:81-107 | over any lines the fence state is that of the section after each of them exactly when no line closes its open fence with such blanks |
| Fences.TextFollowsIff | internal/blockkit/escape.go:81-107 | the same for a whole text cut into its lines |
| Fences.ClosesTooEarly | internal/blockkit/escape.go:172-179 | a failing line: three backticks and a no-break space or a form feed |
| EscapeLaws.MrkdwnHoldsTokenIff | internal/blockkit/escape.go:53-79 | escaped text holds a live control token exactly when a rewritten token nested another one |
| EscapeLaws.PlainEscapeHoldsNone | internal/blockkit/escape.go:53-79 | escaping without neutralizing leaves no control token at all |
| EscapeLaws.NeutralizeUndone | internal/blockkit/escape.go:53-139 | in text without `&`, neutralizing and escaping are undone by reading the entities back: nothing else is changed |
| ControlTokens.ControlLenIff | internal/blockkit/escape.go:8-16 | a control token of a given length begins a text exactly when its prefix of that length matches one of the seven alternatives of the pattern, written out as literals, repeated classes and optional labels |
| ControlTokens.TokenAlone | internal/blockkit/escape.go:53-139 | such a token alone is rewritten to an entity and the rest of itself |
| ControlTokens.NoTokenLeft | internal/blockkit/escape.go:81-139 | in a text without backticks and tildes whose tokens are not nested, no stretch of a line of the neutralized text matches the pattern |
| ControlTokens.NoBroadcastLeft | internal/blockkit/escape.go:13 | in particular none of the three broadcasts is left |
| Placeholder.ParsePlaceholders | internal/blockkit/placeholder.go:268-305 | the scan over a moving position finds exactly the tokens of the specification, or rejects |
| Placeholder.FlattenParses | internal/blockkit/placeholder.go:268-305 | every list of brace-free literals and well-formed bodies parses, from its reassembled text, to exactly its tokens |
| Placeholder.ParsedIsFlatten | internal/blockkit/placeholder.go:268-305 | every accepted string is the reassembly of its literals and tokens |
| Placeholder.ParseIff | internal/blockkit/placeholder.go:268-305 | a string is accepted exactly when it is such a reassembly and holds no blocked fragment; its tokens are then those of the pieces |
| Placeholder.SplitUnique | internal/blockkit/placeholder.go:268-335 | the decomposition into literals and tokens is unique |
| Placeholder.CountsAgree | internal/blockkit/placeholder.go:268-305 | opening and closing markers of a decomposition agree in number with its tokens |
| Printed.SpelledMeans | internal/blockkit/placeholder.go:307-335 | the item, the two halves of its pair, or an input name of small letters, digits and underscores, with one of six modifiers or none, is read as what it names |
| Printed.AcceptedIff | internal/blockkit/placeholder.go:268-347 | a string is accepted exactly when it is a text of such tokens between literals without double braces, and holds none of the seven blocked fragments |
| Render.RenderString | internal/blockkit/placeholder.go:366-389 | the rescanning loop never misses an index, copies literals, and puts the i-th token rendering in the i-th hole |
| Render.RenderFallbackString | internal/blockkit/emit_slack.go:285-308 | the fallback renderer uses the same decomposition, with cleaned literals and tokens |
| Render.TextRendersIff | internal/blockkit/placeholder.go:366-454 | a string renders, in either renderer, exactly when it parses and each of its tokens has a value that renders |
| Render.TokenRendersIff | internal/blockkit/placeholder.go:391-454 | one token renders exactly when its value is bound and has the type of its input |
| Render.TextDependsOnTokens | internal/blockkit/placeholder.go:366-389 | the rendering depends on the values of the named tokens alone |
| Render.PlainTextRenders | internal/blockkit/placeholder.go:366-389 | text without markers and blocked fragments always renders |
| Printed.LinePrints | internal/blockkit/placeholder.go:366-413 | a text of tokens prints its literals and, for each token, the value it names: the bound input, the item of the region, or the half of its pair |
| Printed.TextShown | internal/blockkit/escape.go:23-51 | what each of the five text types is escaped to in either slot |
| Printed.TimeShown | internal/blockkit/placeholder.go:415-446 | times have two layouts, numbers their printed form, in either slot |
| Printed.ModifiersShow | internal/blockkit/placeholder.go:434-453 | `code` and `bold` enclose the rendering without a modifier, the time modifiers leave other values as they are, nil prints nothing |
| Printed.CaseShown | internal/blockkit/placeholder.go:447-453 | `upper` and `lower` map the text before it is escaped |
| Printed.LiteralsPrint | internal/blockkit/emit_slack.go:317-319 | literals are printed as they are, in the fallback stripped and neutralized |
| Printed.PrintsItself | internal/blockkit/placeholder.go:366-454 | in plain text, where the named texts hold no control token, a text prints itself with each token replaced by the text it names |
| Printed.PairPrints | internal/blockkit/placeholder.go:395-406 | the text of a pair in a confirmation prints the label, a colon and the value |
| Printed.HalvesAreIndependent | internal/blockkit/placeholder.go:395-406 | a text without `item.value` does not depend on the value of the pair, and one without `item.label` not on its label |
| Evaluator.SplitLongText | internal/blockkit/placeholder.go:456-473 | the slicing loop yields the specified chunks |
| LayoutLaws.SplitReassembles | internal/blockkit/placeholder.go:456-473 | the chunks of any text reassemble to it, none longer than the limit and all but the last full |
| Evaluator.RegionElements | internal/blockkit/region.go:132-147 | the items of a region: chunks, pairs or nothing, or an error for other types |
| Evaluator.RenderActions | internal/blockkit/region.go:157-197 | the action block of the named actions, with the carried raw text, or an error |
| Layout.ActionsBlockHasNoActions | internal/blockkit/region.go:38-48 | a generated action block holds no further action node, so sending it through the renderer again ends |
| Evaluator.RenderNodeWith | internal/blockkit/region.go:14-81 | the recursive evaluator with its loops over local slices and maps computes the specified tree |
| Evaluator.RenderRegionWith | internal/blockkit/region.go:92-130 | `when`, `each` and `block` regions expand in place, in order |
| Views.ObjectShows | internal/blockkit/region.go:50-77 | an object keeps its keys; identifying entries are copied, a `text` takes the slot its object declares, other strings are plain text |
| Views.ArrayShows | internal/blockkit/region.go:20-33 | entries of an array are rendered on their own and in order |
| Views.EntryOfArray | internal/blockkit/region.go:20-33 | a region contributes its blocks, any other entry one |
| Views.RegionShows | internal/blockkit/region.go:92-147 | a region is hidden exactly when its input or its condition is nil, empty or false; otherwise it shows its block, or block i with pair i, or with part i of the text, in scope |
| Views.ActionsShow | internal/blockkit/region.go:157-212 | an actions entry shows one button for each named action, in order, with its identifier, its text, its style, and the text of the value it carries |
| Evaluator.InspectNode | internal/blockkit/placeholder.go:37-88 | the checker with its shared set of used names adds exactly the specified names, or rejects |
| Evaluator.InspectRegionWith | internal/blockkit/placeholder.go:114-163 | regions are checked with the scope of their items |
| Checked.StandIff | internal/blockkit/placeholder.go:207-266 | which token may stand where, with which modifier |
| Checked.InspectIff | internal/blockkit/placeholder.go:37-266 | the checker accepts exactly the layouts that keep the rules for texts, regions, actions and entries, and finds exactly the inputs named by a token, region, condition, action or input block |
| LayoutLaws.CheckedRendersIff | internal/blockkit/placeholder.go:37-163 | an accepted layout renders for any assignment of nil or well-typed values exactly when the carried texts of its entered regions do |
| LayoutLaws.CheckerSound | internal/blockkit/placeholder.go:37-163 | checker soundness: an accepted layout without actions never fails, under any nesting of regions |
| LayoutLaws.WitnessRendersIff | internal/blockkit/region.go:14-130 | one render with every region entered is a complete witness: any other assignment, with lists of any length, renders exactly when its carried texts do |
| LayoutLaws.ButtonsRenderIff | internal/blockkit/region.go:157-197 | the buttons render exactly when every named action exists and its text and carried value render |
| LayoutLaws.ActionsNodeIff | internal/blockkit/region.go:38-48 | an action node renders exactly when its names are ready, carried texts sent through the renderer again included |
| LayoutLaws.PlainCarriesReady | internal/blockkit/region.go:38-48 | carried texts without markers and blocked fragments are always ready |
| LayoutLaws.RenderReadsOnlyUsed | internal/blockkit/placeholder.go:37-163 | a rendering depends on the inputs the checker collected alone |
| Startup.MaximalIsWitness | internal/blockkit/registry.go:336-387 | the maximal representative values are well typed, all present, and enter every region |
| Blocks.VerifyCompiled | internal/blockkit/verify.go:33-53 | the loop with its set of block IDs accepts exactly blocks within the limit of the surface, with distinct identifiers and no input block on a message |
| Blocks.LayoutHeads | internal/blockkit/region.go:14-130 | the rendered blocks are in number, type and block ID what the layout says: one for each item of an entered each region, one for another entered region or entry |
| Blocks.LayoutValid | internal/blockkit/verify.go:138-164 | types and identifiers that are valid in the maximal render are valid in every well-typed view |
| Blocks.ThinLayout | internal/blockkit/verify.go:33-53 | a view without some of the maximal values passes the verification that the maximal one passes |
| Startup.AcceptedCompilesIff | internal/blockkit/emit_slack.go:184-213 | what startup accepts renders for a well-typed view, layout and fallback, exactly when its carried texts survive rendering |
| Startup.AcceptedPassesIff | internal/blockkit/verify.go:33-53 | it renders and its top-level blocks pass the checks on number, type and ID exactly when they do, the blocks of its entered regions stay within the limit of the surface, and no block ID repeats among them |
| Startup.AcceptedWithoutActionsCompiles | internal/blockkit/emit_slack.go:184-213 | the layout and the fallback of a template without actions always render once it was accepted |
| Startup.AcceptedWithoutActionsPassesIff | internal/blockkit/verify.go:33-53 | the blocks of such a template pass those checks exactly when their number and their IDs fit |
| Startup.AcceptedPlainCarriesCompiles | internal/blockkit/emit_slack.go:184-213 | so do those of a view whose carried texts hold no marker and no blocked fragment |
| Startup.MinimalIsImplied | internal/blockkit/contract.go:222-243 | the minimal variant passes, values, render and blocks, whenever the maximal one does |
| StartupCases.AcceptedCanFail | internal/blockkit/region.go:38-48 | a concrete accepted template that fails for a well-typed view whose carried text holds a blocked fragment |
| StartupCases.NotePassesIff | internal/blockkit/region.go:38-48 | that template compiles, and its blocks pass, exactly for the texts that render |
| StartupCases.LongListFails | internal/blockkit/verify.go:45-51 | an accepted message without actions that 51 pairs, or two with a block ID, make fail |
| StartupCases.ListPassesIff | internal/blockkit/verify.go:33-53 | that template passes exactly for lists no longer than the limit of its surface, and with a block ID for at most one pair |
| Engine.BuildRepresentativeValues | internal/blockkit/registry.go:336-350 | the loop over the inputs, in any order, builds exactly the representative values |
| Engine.ValidateLayoutContract | internal/blockkit/placeholder.go:24-35 | accepts exactly the layouts that check and use every declared input |
| Engine.RenderCompiled | internal/blockkit/emit_slack.go:184-260 | succeeds exactly when layout and fallback render to arrays, and returns the blocks of the layout |
| Engine.RenderAndVerify | internal/blockkit/emit_slack.go:26-61 | from a bound view: rendering, then the checks on the blocks |
| Engine.CompileVariants | internal/blockkit/contract.go:222-250 | both representative variants have valid values, render, and pass the checks on their blocks |
| Engine.New | internal/blockkit/contract.go:201-254 | either the engine holds every template, each accepted and with outputs matched one to one, or some template is refused for one of those reasons |
| Engine.TrustedIsNotRefused | internal/blockkit/contract.go:201-254 | the two outcomes exclude each other for one template |
| Outputs.CollectInputBlocks | internal/blockkit/outputs.go:152-214 | collects exactly the input blocks of a layout under distinct fresh IDs, or finds an incomplete or clashing one |
| Outputs.CollectsXorClashes | internal/blockkit/outputs.go:152-214 | the two outcomes exclude each other |
| Outputs.CollectedOnce | internal/blockkit/outputs.go:152-214 | what a layout collects does not depend on the order its keys are visited in |
| Submission.MatchOutputs | internal/blockkit/outputs.go:44-96 | accepts exactly the one-to-one matchings of effective block IDs, actions and element kinds |
| Submission.ValidateOutputContract | internal/blockkit/outputs.go:34-97 | a modal contract holds exactly when its layout collects and its outputs match; other surfaces declare none |
| Submission.OneOutputPerInputBlock | internal/blockkit/outputs.go:34-97 | every input block of the layout has exactly one output |
| Submission.OneInputBlockPerOutput | internal/blockkit/outputs.go:34-97 | every output has exactly one input block, of its action and element kind |
| Submission.SameCount | internal/blockkit/outputs.go:34-97 | as many outputs as input blocks |
| Submission.Target.ClearOutputs | internal/blockkit/outputs.go:287-290 | every output field is zeroed first |
| Submission.SortedNames | internal/blockkit/outputs.go:282-286 | the output names, each once, in the order of strings |
| Submission.Target.Submit | internal/blockkit/outputs.go:253-320 | succeeds exactly when every output decodes and fits its field, and then holds the decoded state and nothing of its old contents; otherwise it reports the block of the first failing output in name order, with the outputs before it decoded and it and the later ones zero |
| Submission.DecodedFromItsBlock | internal/blockkit/outputs.go:291-330 | a required or non-zero value came from a non-empty raw value of the output's own input block, and an enumeration value from its list |
| Submission.DecodeFailsIff | internal/blockkit/outputs.go:291-330 | decoding fails exactly for a required empty value, a value outside the list of an enumeration, and a number that is unreadable or does not fit |
| Submission.DecodedIsGiven | internal/blockkit/outputs.go:291-364 | otherwise a text is the submitted value of its own element, a number is read from it, and an empty value is zero |
| Submission.BlocksAreIndependent | internal/blockkit/outputs.go:291-319 | changing the state of one block changes at most the output matched to it |
| WorkflowLoader.Loader.Load | internal/agentdef/workflow_loader.go:109-181 | loading succeeds exactly when the references unfold to a tree with no repeated path, within the node and depth bounds, every file resolvable and decodable; it then adds exactly that tree; a reported cyclic chain is a genuine cycle, a path too deep ends a chain of 15 references, one document too many stands beside 50 others, a duplicate was loaded before, and every other fault is one of the files; `active` is restored on every path |
| WorkflowLoader.Loader.LoadChildren | internal/agentdef/workflow_loader.go:158-181 | the same for the reference loop of one document, the stack being the chain of open documents |
| WorkflowLoader.Locate | internal/agentdef/workflow_loader.go:109-128 | a path is located exactly when its canonical file may be followed |
| WorkflowLoader.ClosesCycle | internal/agentdef/workflow_loader.go:129-137 | the part of the stack from an active document on, closed by it, is a cycle of references |
| WorkflowLoader.NextChildFits | internal/agentdef/workflow_loader.go:109-181 | when the whole subtree fits, each child fits beside its elder siblings |
| WorkflowPositions.UnfoldsIff | internal/agentdef/workflow_loader.go:109-181 | the references unfold exactly when every position they lead to is a decodable YAML file inside the directory, with relative references, at most 15 deep |
| WorkflowPositions.FitsIff | internal/agentdef/workflow_loader.go:109-181 | a workflow loads exactly when that holds, no file stands at two positions, and at most 50 files are reached |
| WorkflowPositions.LoadedAt | internal/agentdef/workflow_loader.go:154-180 | at every position the loaded document is the file that the references lead to, with each reference resolved |
| WorkflowTree.LoadedHangs | internal/agentdef/workflow_loader.go:174-180 | the loaded documents hang together as the unfolded tree |
| WorkflowTree.OrderedDocuments | internal/agentdef/workflow_loader.go:91-107 | the unguarded walk ends on a loaded tree and lists it in preorder |
| WorkflowTree.PreorderPaths | internal/agentdef/workflow_loader.go:91-107 | the walk visits exactly the paths of the tree, in order |
| WorkflowPrepare.ListedOnce | internal/agentdef/workflow_loader.go:91-107 | every loaded document is listed exactly once, as stored |
| WorkflowTree.WalkLoops | internal/agentdef/workflow_loader.go:466-482 | the unguarded walk records every name with its loop flag |
| WorkflowTree.RecordIsFlag | internal/agentdef/workflow_loader.go:466-482 | with unique names the name-keyed map gives each node its own loop flag |
| WorkflowBuild.NamesAreUnique | internal/agentdef/workflow_loader.go:69-76 | true exactly when no agent name repeats |
| WorkflowBuild.ValidateBlueprint | internal/agentdef/workflow_loader.go:435-456 | accepts exactly when the root is described and every node is valid under the loop flag recorded for its name, repeated names included |
| WorkflowBuild.KeyedIsOwn | internal/agentdef/workflow_loader.go:435-482 | with unique names that is every node under its own loop flag |
| WorkflowRules.NodeIff | internal/agentdef/workflow_loader.go:484-581 | the rules of a node: a step with a model that resolves and tools it may have, alone and in the target project when it is an external agent; a sequence with children; a loop with children and 1 to 100 iterations |
| WorkflowPrepare.LoadWorkflow | internal/agentdef/workflow_loader.go:51-88 | succeeds exactly for an identifier of letters, digits and underscores, a fitting tree, unique names and a valid blueprint |
| WorkflowBuild.PrepareModels | internal/app/workflow_tools.go:126-151 | prepares the models of all steps exactly when every reference resolves |
| WorkflowBuild.ResolveTools | internal/app/workflow_tools.go:510-537 | the tool list of a step, or an error |
| WorkflowBuild.ToolListIff | internal/app/workflow_tools.go:510-537 | tools resolve exactly when `exit_loop` is inside a loop and the others are registered or only checked |
| WorkflowBuild.BuildLlmNode | internal/app/workflow_tools.go:421-463 | one step is built, or refused, as specified |
| WorkflowBuild.LlmBuildsIff | internal/app/workflow_tools.go:328-463 | a validated step with its model prepared builds exactly when it is only checked or its tools are registered |
| WorkflowBuild.BuildWorkflowNode | internal/app/workflow_tools.go:310-324 | the unguarded recursion over a loaded tree ends and builds the specified agent |
| WorkflowBuild.BuildChildren | internal/app/workflow_tools.go:465-508 | children are built in declaration order, with the loop flag of their parent |
| WorkflowBuild.ValidatedBuildsIff | internal/app/workflow_tools.go:310-537 | every validated subtree builds in validate-only mode, and at run time exactly when its tools are registered |
| WorkflowAgents.ToolsAreBuilt | internal/app/workflow_tools.go:510-537 | the tools of a step are the declared ones in order; when only checking, each `exit_loop` among them |
| WorkflowAgents.BuiltAt | internal/app/workflow_tools.go:310-508 | an agent stands at every position below sequences and loops alone, with the name, description, class, number of children, iterations, model, instruction, output key and tools of the document there, and `exit_loop` below a loop only |
| WorkflowPrepare.SoundBuilds | internal/app/workflow_tools.go:153-165 | the same for a whole workflow that was loaded and validated |
| WorkflowPrepare.PrepareWorkflow | internal/app/workflow_tools.go:126-165 | whatever loading accepts prepares its models and builds, always when only checking; the agent at every position is what the document there says |
| YamlNode.Node.MappingEntry | internal/config/yaml.go:512-523 | the first entry of that name, or none |
| YamlNode.Node.ReplaceMappingValue | internal/config/yaml.go:541-548 | replaces the first such value in place and nothing else; a missing name changes nothing |
| YamlNode.Node.RemoveMappingEntry | internal/config/yaml.go:550-557 | removes the first such entry in place and nothing else; a missing name changes nothing |
| YamlNode.Node.PreservePresentation | internal/config/yaml.go:559-566 | keeps comments always and style for the same kind |
| YamlMerge.RemoveMappingEntries | internal/config/yaml.go:525-539 | filtering into its own backing array keeps exactly the other entries, in order |
| YamlMerge.DropKeysLaw | internal/config/yaml.go:525-539 | retired keys are gone, however often they stood there; every other key reads as before |
| YamlMerge.MergeKnownFields | internal/config/yaml.go:475-498 | the merge in place changes only nodes of the document and leaves the specified content, wherever alias edges lead |
| YamlMerge.OverlayPresentFields | internal/config/yaml.go:455-472 | the overlay in place likewise |
| YamlTree.MergeAt | internal/config/yaml.go:475-498 | what a merge leaves under each schema name, whatever the other names did |
| YamlTree.MergeElsewhere | internal/config/yaml.go:475-498 | names outside the schema are untouched |
| YamlTree.OverlayAt | internal/config/yaml.go:455-472 | what an overlay leaves under each schema name |
| YamlTree.OverlayElsewhere | internal/config/yaml.go:455-472 | names outside the schema keep their default |
| YamlLaws.MergeKnown | internal/config/yaml.go:475-498 | after a merge the document holds the known values at every schema path |
| YamlLaws.OverlayRespects | internal/config/yaml.go:455-472 | documents that agree on the schema overlay alike |
| YamlLaws.PutGet | internal/config/yaml.go:455-498 | put-get: reading the merged document over the defaults gives what reading the known values gives |
| YamlLaws.PutGetIff | internal/config/yaml.go:455-498 | it gives back the known values themselves exactly when no field with a default is missing from them |
| YamlLaws.MergeKeeps | internal/config/yaml.go:475-498 | entries outside the schema keep keys, values and order in every section that stays a mapping |
| YamlLaws.KeyOrder | internal/config/yaml.go:475-498 | the key order of the result: surviving keys in place, then new ones in schema order |
| YamlLaws.MergeTwice | internal/config/yaml.go:475-498 | a second merge of the same values changes nothing, presentation included |
| YamlLooks.LooksKept | internal/config/yaml.go:475-498 | in every merged section a value that stays keeps its comments, and its style where its kind stays; a new one comes as it is |
| YamlLooks.KeysKept | internal/config/yaml.go:475-498 | a key that stays keeps its node, a new one has the node of the known values |
| YamlPaths.ReadIff | internal/config/yaml.go:455-472 | at any path of values, a document value that differs from the default is read exactly when the schema lists the path or the defaults lack a section on it |
| YamlPaths.WrittenIff | internal/config/yaml.go:475-498 | a changed value is written, up to style and comments, exactly when the schema lists its path or the document lacks a section on it |
| ConfigSchema.ConfigUnique | internal/config/yaml.go:29-205 | no section of the configuration schema lists a name twice, so the laws apply to it |
| YamlPaths.StuckFields | internal/config/yaml.go:144-154 | the typed fields `orchestration.workstreams.snapshot_budget_tokens` and `orchestration.result_handles.retention`, and what lies below: a document value is not read, and a change is written only into a document without the section |
| YamlClone.Cloner.CloneNode | internal/config/yaml.go:572-587 | the memo copy ends on cyclic graphs, extends a one-to-one memo, and leaves every newly copied node with edges to copies |
| YamlClone.CloneGraph | internal/config/yaml.go:568-587 | the copy of exactly the reachable graph is disjoint from it and isomorphic to it; a tree of content edges becomes an equal tree of its own |
| YamlClone.LeastClosed | internal/config/yaml.go:568-587 | every finite closed graph has a least closed part reachable from a root |
| YamlClone.WalkImage | internal/config/yaml.go:572-587 | every path of content and alias edges leads in the copy to the copy of where it leads |
| YamlClone.MeetIff | internal/config/yaml.go:572-587 | sharing is preserved: two paths meet in the copy exactly when they meet in the original |
| Turns.HasPlainText | internal/domain/compaction.go:55-65 | true exactly for user content of plain text parts |
| Turns.ContentCost | internal/domain/compaction.go:156-168 | the summed part costs, or an error when a part cannot be encoded |
| Turns.TextCost | internal/domain/compaction.go:132-168 | contents of text alone cost the length of their text |
| Turns.ConversationTurnIndexAt | internal/domain/compaction.go:306-319 | the one turn that holds the content, or none |
| Turns.LayoutInverts | internal/domain/compaction.go:300-319 | every covered content lies in the turn its offset says, and is that turn's content |
| Turns.PartitionUnique | internal/domain/compaction.go:215-235 | turns with one plain input each, their first content, reassemble to a ledger in one way only |
| TurnClassifier.CutTurns | internal/domain/compaction.go:219-235 | the turns flatten to the ledger from the first plain input, each with exactly one plain input, its first content |
| TurnClassifier.CallMapIsLast | internal/domain/compaction.go:241-248 | every call ID maps to the last content that calls it |
| TurnClassifier.ActiveStart | internal/domain/compaction.go:249-266 | the minimum of the last turn start and the starts of all open invocations, in any visiting order |
| TurnClassifier.LeastUnique | internal/domain/compaction.go:249-266 | the minimum is the same for every order |
| TurnClassifier.OpenCallsAreActive | internal/domain/compaction.go:249-266 | no call the protocol leaves open stands before the active suffix |
| TurnClassifier.ScannedCalls | internal/domain/protocol.go:269-372 | an accepted scan records exactly the calls of the contents |
| TurnClassifier.ClassifyConversationTurns | internal/domain/compaction.go:215-290 | rejects exactly ledgers without plain input, with a content of another role, or with a part that breaks a rule of the protocol behind the parts before it; otherwise partition, costs, active start and open flags as promised |
| TurnClassifier.NameMapIs | internal/domain/compaction.go:269-276 | an ID has a name exactly when some content calls it, by that name |
| TurnClassifier.TotalIff | internal/domain/compaction.go:330-337 | the turn costs add up to the cost of the suffix exactly when every part of it encodes; `newTurn` drops the error of one that does not |
| TurnClassifier.MixedDoesNotAddUp | internal/domain/compaction.go:330-337 | a ledger of two turns, accepted by the classifier, whose turn costs add up to one although its cost cannot be measured |
| Protocol.ScanContentProtocol | internal/domain/protocol.go:269-372 | the scan with its early returns computes the specified ledger or violation |
| Protocol.ScanSound | internal/domain/protocol.go:269-372 | over every ledger, rejected ones included: the running count is the number of open calls, answers stay within each call's shape, confirmations and the calls they wrap pair up one to one |
| ProtocolRules.AcceptedIff | internal/domain/protocol.go:269-372 | a ledger is accepted exactly when its roles are known and every part is a new call, or a response behind a call of its ID and name that is not answered yet, or answered once by a demand for a confirmation that was then requested and answered; requests stand behind such a demand; the scan then knows each call by its name, answers and confirmation |
| ProtocolRules.RejectedIs | internal/domain/protocol.go:269-372 | a rejection names the rule that the first faulty part breaks |
| ProtocolRules.PlainIff | internal/domain/protocol.go:269-372 | without confirmations: accepted exactly when call IDs are new and every response stands behind the call of its ID and name, one for each call at most |
| ProtocolRules.OpenIff | internal/domain/protocol.go:115-126 | a confirmation is open until its answer, a call it was requested for until the second answer, any other until an answer that does not ask for confirmation |
| Protocol.FinalAfterDecision | internal/domain/protocol.go:341-354 | a wrapped call has its final response only after its own confirmation was answered |
| Protocol.ScanFrontier | internal/domain/protocol.go:179-220 | the loop in call order computes the frontier |
| Protocol.FrontierIff | internal/domain/protocol.go:179-220 | ready exactly when no call is open; pending confirmation exactly when every open call is an open confirmation or stands behind one |
| Protocol.CompleteIff | internal/domain/protocol.go:149-174 | the completeness check finds nothing exactly when the frontier is ready |
| ProgressLaws.JobProgress.Apply | internal/domain/external_agent_progress.go:324-398 | one event in place equals one step of the specification |
| ProgressLaws.JobProgress.ApplyToolEvent | internal/domain/external_agent_progress.go:404-432 | the bounded per-call accounting in place likewise |
| Progress.ActiveCallsIff | internal/domain/external_agent_progress.go:400-432 | the reference set: calls whose latest known status is pending or running |
| Progress.RunTracks | internal/domain/external_agent_progress.go:404-432 | over every log from no tools: tracked calls are active with their latest status, and are all of them while nothing overflowed |
| Progress.CountIsExact | internal/domain/external_agent_progress.go:404-432 | the count is the map size, at most 16, never above the active calls, and equal to them without overflow |
| Progress.OverflowIff | internal/domain/external_agent_progress.go:404-432 | the sticky overflow flag is set exactly when at some moment more than 16 calls were active |
| ProgressLaws.ClocksAreLatest | internal/domain/external_agent_progress.go:332-340 | transport, session and meaningful-activity clocks are the latest times of their events, in any order |
| ProgressLaws.ClocksForward | internal/domain/external_agent_progress.go:332-340 | no clock moves back, the prompt start is set once, session activity is never later than transport activity |
| ProgressLaws.RunPhase | internal/domain/external_agent_progress.go:341-398 | a terminal phase always has its stop reason, and a wait for permission is marked pending |
| ProgressHistory.PhaseIsLast | internal/domain/external_agent_progress.go:341-397 | over every log without untracked calls the phase is the one set last, by a table of events, statuses and the calls active at that moment |
| ProgressHistory.StandingStep | internal/domain/external_agent_progress.go:328-397 | last event, pending permission, stop reason and error class follow the events that set them |
| ProgressHistory.ToolStep | internal/domain/external_agent_progress.go:404-416 | the tool of the last tool event with an ID is kept, with the last kind that was given |
| ProgressHistory.ClocksMove | internal/domain/external_agent_progress.go:216-241 | which events move which clock: by kind, and for tool events by whether the call is active in the log and with which status |
| ProgressLaws.FailuresAfterTheEnd | internal/domain/external_agent_progress.go:386-397 | after completion or cancellation, failures change neither phase, stop reason nor error class |
| ProgressLaws.ErrorClassFromFailure | internal/domain/external_agent_progress.go:386-397 | a recorded error class came from a failure event |
| ProgressLaws.StepValidIff | internal/domain/external_agent_progress.go:272-304 | a step keeps a valid projection valid exactly when what it retains of the event is in the bounded lists |
| ProgressLaws.RunValid | internal/domain/external_agent_progress.go:272-304 | validity over whole logs of fitting events, from restored projections too |
| Cards.FitKnowledgeCards | internal/domain/knowledge.go:1170-1192 | appending into shared spare capacity computes the pure greedy selection |
| Cards.GreedyFits | internal/domain/knowledge.go:1181-1191 | every non-empty selection was measured within the budget |
| Cards.GreedyMaximal | internal/domain/knowledge.go:1140-1192 | under the default cost no card left out can be added within the budget |
| Cards.RenderMore | internal/domain/knowledge.go:1143-1157 | what one more card adds to the rendered length |
| FrameCards.LocalIsExact | internal/domain/knowledge_frame_card.go:397-435 | the local cost model is the rendered length |
| FrameCards.PlanSelection | internal/domain/knowledge_frame_card.go:412-424 | the plan as a loop with a running total |
| FrameCards.PlanIsGreedy | internal/domain/knowledge_frame_card.go:412-424 | the plan is the greedy selection under the rendered length |
| FrameCards.PlanMaximal | internal/domain/knowledge_frame_card.go:412-424 | any selection that holds the plan and one card more is over the budget |
| FrameFit.Counter.Measure | internal/domain/knowledge_frame_card.go:506-510 | one call of the counted cost function: one more on the count, on this selection |
| FrameFit.Correct | internal/domain/knowledge_frame_card.go:590-613 | one call of the counter, on the plan it returns, or none when nothing can be inferred; unscaled, it replans the same selection |
| FrameFit.CardsInOriginalOrder | internal/domain/knowledge_frame_card.go:640-648 | exactly the cards of the included payloads, in their order |
| FrameFit.SortKeeps | internal/domain/knowledge_frame_card.go:671-673 | the trial order is ascending and a permutation |
| FrameFit.Refine | internal/domain/knowledge_frame_card.go:660-698 | no more calls than allowed, never over the cost budget, never out of order, a result that was measured, and no payload of the verified selection is lost |
| FrameFit.CorrectTwice | internal/domain/knowledge_frame_card.go:538-568 | both correction rounds: at most two more calls, and only measured selections are kept |
| FrameFit.FitKnowledgeFrameCards | internal/domain/knowledge_frame_card.go:497-582 | for every counter: at most ten calls, all on selections in order; the result was measured within the budget or is empty, and only a failed call fails; for the default counter exactly the greedy selection |
| Claims.AdmittedIff | internal/domain/knowledge.go:312-339 | admission in full: a human or decision source, in a scope the host bound, by the trusted actor, asserted or verified |
| Claims.AdmittedIsAuthoritative | internal/domain/knowledge.go:312-339 | an admitted claim never carries a model-derived source |
| Claims.ValidIff | internal/domain/knowledge.go:255-310 | what makes a claim valid, clause by clause |
| Claims.TransitionIff | internal/domain/knowledge.go:345-395 | which transitions succeed for which source, by a table of changes, and which error the others give |
| Claims.CorrectionIff | internal/domain/knowledge.go:397-434 | exactly when a correction succeeds |
| Claims.Record.TransitionStatus | internal/domain/knowledge.go:345-378 | the error in the source's order, and the claim unchanged on failure |
| Claims.Record.Correct | internal/domain/knowledge.go:397-418 | the error in the source's order, and the prior claim unchanged on failure |
| Claims.RunRanks | internal/domain/knowledge.go:345-418 | along every run the status only moves forward and everything else stays |
| Claims.Lifecycle | internal/domain/knowledge.go:345-418 | from an admitted claim: superseded and archived absorb, nothing returns to asserted, a disputed claim is never verified, expired is never stored |
| Claims.ApplyAuthority | internal/domain/knowledge.go:345-418 | every change of status is made by a source with the authority for it |
| Claims.StatusHasAuthority | internal/domain/knowledge.go:345-418 | so is the last status of every run |
| Claims.SupersededAgain | internal/domain/knowledge.go:397-418 | a superseded claim accepts a further correction and does not change |
| Claims.ExpiryIsComputed | internal/domain/knowledge.go:237-245 | over every run, expiry shows exactly on non-terminal claims past their validity |
| Jobs.Job.Transition | internal/domain/external_agent_job.go:1194-1222 | an allowed transition is made, any other refused without effect |
| Jobs.JobTable | internal/domain/external_agent_job.go:1205-1222 | the seventeen allowed changes of a job, as a table |
| Jobs.ActivationTable | internal/domain/external_agent_job.go:393-409 | the nine allowed changes of an activation, as a table |
| Jobs.JobForward | internal/domain/external_agent_job.go:1205-1222 | terminal statuses absorb, and no status that cannot execute again ever does |
| Jobs.NeverRunsAgain | internal/domain/external_agent_job.go:1205-1222 | a job whose completion was ever unknown is never queued or running again |
| Jobs.StartsAreInterrupted | internal/domain/external_agent_job.go:1205-1222 | every restart follows a safe interruption of the start before it |
| Jobs.OutcomeWasStarted | internal/domain/external_agent_job.go:1205-1222 | only queued or cancelled jobs may never have been started |
| Jobs.Activation.Transition | internal/domain/external_agent_job.go:371-409 | the same for activations |
| Jobs.ModelStartsOnce | internal/domain/external_agent_job.go:393-409 | an activation starts the model at most once |
| Jobs.CompletedWasPrepared | internal/domain/external_agent_job.go:393-409 | a completed activation started the model and later prepared its response |
| Jobs.SettledStays | internal/domain/external_agent_job.go:393-409 | settled activations never change |

## Left out

- Errors are kinds or `None`, not message texts; when a check accumulates messages, only whether there are any is modelled.
- Slack, model, database, HTTP and process code: plumbing over libraries.
- Engine.RenderCompiled: the rendered array is not decoded into Slack's block types, so an entry that Slack's library rejects is not refused here.
- Startup.AcceptedPassesIff: of the verification of blocks (internal/blockkit/verify.go), the number of top-level blocks, their types and their block IDs are modelled; action IDs, text lengths, section fields and blocks nested inside a block are further checks that can refuse a view.
- Blocks.VerifyCompiled: the same holds of one call.
- Engine.New: binding of Go structs to templates and the representative titles of modals are not part of the startup modelled here.
- Titles, submit and close labels and callback identifiers of templates: each is one more string for the same renderer.
- Fallback text collection, its truncation and its key order (internal/blockkit/emit_slack.go:266-283, 321-342): the fallback is modelled up to the rendered tree.
- Case mapping, time formats, default parsing, number formatting and the stripping of Slack markup are parameters of the host record.
- Escaping works on bytes in the source; here on characters. The characters it looks at are ASCII, apart from the Unicode blanks behind a closing fence, which the source decodes too; so the two agree on well-formed text.
- Submission.Target.Submit: reflection over struct fields is a map from output to value; reading a decimal into 64 bits and the width of an integer field are parameters.
- Submission.ValidateOutputContract: which of several failing outputs is reported first is not modelled; only whether the contract holds.
- Workflow files are one fixed partial map from path to canonical path and decoded document; symbolic links, file modes and reads are in that map, as is the rule that only sequential and loop agents decode with children.
- WorkflowLoader.Loader.Load: when several faults are present, which of them is reported is stated only as far as each reported one is genuine.
- Of a built agent, the flags that forbid transfers are not modelled.
- Constructing models, tools and agents in the agent library is taken to succeed, and the checks across several workflows (internal/agentdef/workflow_loader.go:583-619) are flat.
- YamlMerge.MergeKnownFields: the content edges of both documents form trees, as decoding and encoding make them; alias edges may lead anywhere in the graph they are in. Parsing, encoding, the rename of the old `acp` key and the write to disk are library or plumbing code.
- YamlMerge.OverlayPresentFields: the same.
- Comments and style are one record per node; the tag of a section that is merged is the one it had.
- Turns: token costs of structured parts are a given size or a failure of JSON encoding, and cloning of contents is the identity on values.
- Protocol: the texts by which a response asks for confirmation, and the JSON of the confirmed call, are given as flags of the part; digests are not modelled.
- Progress: the fields no event touches (creation and update times) are omitted, and times are integers with a zero.
- FrameFit.FitKnowledgeFrameCards: budgets are unbounded integers, so the product in a correction cannot overflow; the payload identity of a card is a number; the counter answers the same selection alike each time it is called.
- FrameFit: for counters other than the rendered length the selection may differ from the greedy one; safety, order and the bound on calls are what is stated.
- Claims: limits are taken as valid with defaults filled in, text policy, user ID shape and owner key are parameters, and preferences, documents, tombstones and evidence are flat validators.
- Jobs: fields other than the status, result delivery and digests.
- Database upgrade, quarantine, CLI prompts and printed text.
