# OpsKat: a verified model

OpsKat lets people and an AI assistant work on servers, databases and clusters through one desktop and command line
tool. This project models the parts of it where a mistake would be hardest to see, and proves what they promise.

The model has four areas.

* **Deciding whether a command may run** (`text.dfy`, `glob.dfy`, `command_rule.dfy`, `shell.dfy`, `unit_rules.dfy`,
  `policy_model.dfy`, `permission.dfy`, `policy_law.dfy`, `policy_tester.dfy`, `policy_agreement.dfy`, `approvals.dfy`,
  `default_rule.dfy`, `local_gate.dfy`). A shell command is split into executable units, rules are parsed and matched,
  policies are merged along the chain of groups, and deny, allow and grant layers are combined. What that decides is
  proved over the stored policies alone. The policy editor's preview is a second implementation of the same decision;
  the two are proved equal. Approvals write patterns that the matcher reads later; when that works, and when it does
  not, is stated exactly. Commands are also given a meaning, runs with any outcome of every branch and loop, and the
  extracted units are proved to be exactly what can happen in some run.
* **The wire protocol of the SSH proxy** (`frames.dfy`, `exec_stream.dfy`, `transfer.dfy`): the frame codec, remote
  execution with two pumps sharing a connection, uploads and downloads.
* **Lifetimes of connections** (`kafka_pool.dfy`, `conn_caches.dfy`, `forward_manager.dfy`, `ssh_pool.dfy`): reference
  counts, single-flight dialing, eviction and deferred closing. Each critical section is one atomic step; dials, closes
  and everything else made without the mutex are steps of their own; the invariants hold over every interleaving. The
  classes hold the same fields as the original objects and their methods are proved to take these steps.
* **Smaller pieces** (`quoting.dfy`, `batch.dfy`, `event_stream.dfy`): quoting kubectl commands for a remote shell and
  reading them back, the batch executor with its semaphore, and the translator of agent events.

Parsers and printers (shell, SQL), stored policies, clocks, dialers and the user's answers are inputs of the model.

Some results say where the code does less than one might expect:

* Appending ` *` to a rule widens it, except that `* *` accepts less than `*` (`CommandRule.LoneStarNarrows`).
* In a batch of SQL statements, one that needs confirmation hides a denied one behind it
  (`PolicyModel.ConfirmationHidesLaterDenial`).
* An approval for the session does not help a unit that begins with a strippable assignment, nor a compound command on
  a serial asset, nor does it take effect in a session that is pending or rejected (`Approvals.AssignmentIsAskedAgain`,
  `Approvals.SerialCompoundIsAskedAgain`, `Approvals.ShellApprovalHolds`).
* A proxy connection that ends between two frames is read as exit code 0 without an error, with whatever output came
  before (`ExecStream.ClientResultExactly`, `ExecStream.LostConnectionLooksLikeSuccess`). An error message too long for
  a frame is not sent at all, with the same effect (`ExecStream.ErrorIsReportedExactly`).
* Port forwarding counts are exact only while rule ids do not clash (`ForwardManager.StartKeepsCountsExactly`).
* The SSH pool's Release looks its entry up by asset, so after a removal the idle sweep can close a connection that is
  in use (`SshPool.SweepCanCloseBorrowed`); `SshPool.StepExactly` says which steps lead there. An entry stored after
  Close stays in the map.
* Accepting a batch does not run its open commands: each handler checks again and asks again, and a refusal there comes
  back as a success with the refusal as output (`Batch.AcceptedIsAskedAgain`). `Batch.HandedOverExactly` says which
  commands get through.
* The default pattern of the local tool gate does not always accept its own command: not after a strippable assignment,
  and after combined short flags only if nothing is added (`DefaultRule.DefaultRuleExactly`).
* A pattern in which a class between two stars accepts a slash can refuse a text it describes
  (`Glob.ClassesCommitTooEarly`). A star skips bytes and can end inside a character, what is left of which then counts
  as several: `*??` accepts one multi-byte character, and `*[^c]` accepts `c` if it is one
  (`Glob.OneCharacterIsTakenForTwo`, `Glob.ExcludedCharacterIsAccepted`). `Glob.MatchIsExact` covers all other patterns
  on all texts, and on ASCII texts the latter kind too.

## Model

| member | source | states |
|---|---|---|
| Glob.SelfMatch | internal/ai/command_rule.go:269-276 | a pattern without `[` and `\` matches its own text, so such words can serve as rules for themselves |
| Glob.StarAccepts | internal/ai/command_rule.go:269-276 | `*` accepts exactly the words without a slash |
| Glob.MatchIsMeant | internal/ai/command_rule.go:269-276 | matching chunk by chunk, each at the first byte where it fits, accepts only texts that some division of the text among the pattern accepts: for every pattern on ASCII texts, and for every text if no chunk after a star gains from beginning inside a character (its first term rejects U+FFFD, or accepts every multi-byte character and the next term rejects U+FFFD) |
| Glob.MeantIsMatched | internal/ai/command_rule.go:269-276 | matching chunk by chunk accepts every text that some division accepts, multi-byte texts included, if no class between two stars takes a slash |
| Glob.MatchIsExact | internal/ai/command_rule.go:269-276 | if no class between two stars takes a slash, and the text is ASCII or no chunk gains from beginning inside a character, matching chunk by chunk and considering every division give the same answer |
| Glob.ClassesCommitTooEarly | internal/ai/command_rule.go:269-276 | `*[^x]*b` refuses `aa/b`, which it describes: the condition on classes is needed |
| Glob.OneCharacterIsTakenForTwo | internal/ai/command_rule.go:269-276 | `*??` accepts the one character U+65E5: the star ends inside it |
| Glob.ExcludedCharacterIsAccepted | internal/ai/command_rule.go:269-276 | `*[^c]` accepts `c` for the character U+65E5 |
| Glob.EscapedMatchesExactly | internal/ai/command_rule.go:269-276 | a text with every character escaped matches that text and nothing else |
| Glob.RangeMatchesExactly | internal/ai/command_rule.go:269-276 | `[a-z]` accepts the characters of the range, `[^a-z]` all others |
| CommandRule.Tokenize | internal/ai/command_rule.go:154-178 | splits at white space and expands combined short flags; a multi-byte flag character leaves the empty tokens that sizing the result in bytes leaves |
| CommandRule.StripLeadingAssigns | internal/ai/command_rule.go:217-226 | drops leading harmless assignments and stops at the first listed one |
| CommandRule.ParseCommandRule | internal/ai/command_rule.go:19-56 | the index loop reads a rule as program, operands, flags with values and wildcard, in the order and with the overwriting of the recursive reading |
| CommandRule.ParseActualCommand | internal/ai/command_rule.go:60-94 | the same for a command: leading assignments stripped, a `*` is an ordinary operand |
| CommandRule.RuleReading | internal/ai/command_rule.go:19-94 | a text read as a rule and as a command has the same flags, and a rule loses only bare stars |
| CommandRule.TrailingStar | internal/ai/command_rule.go:30-52 | a trailing `*` becomes the wildcard or the value of a final flag, and changes nothing else |
| CommandRule.AppendedStarWidensExactly | internal/ai/command_rule.go:97-150 | appending ` *` keeps every command a rule accepted if and only if the rule is not the lone `*` |
| CommandRule.LoneStarNarrows | internal/ai/command_rule.go:97-101 | the failing family: the lone `*` accepts `ls`, `* *` does not |
| CommandRule.HarmlessAssignIsTransparent | internal/ai/command_rule.go:213-226 | prefixing a non-blank command with an assignment that is not listed changes no match result, for any rule |
| CommandRule.DangerousAssignIsTheProgram | internal/ai/command_rule.go:184-226 | prefixing a listed assignment leaves exactly `*` and rules whose program is that very token |
| CommandRule.SelfMatchExactly | internal/ai/command_rule.go:97-150 | exactly when a command matches the rule with its own text |
| CommandRule.PlainCommandMatchesItself | internal/ai/command_rule.go:97-150 | a command without `[` and `\` that does not begin with a strippable assignment is its own rule |
| CommandRule.FlaglessMatchExactly | internal/ai/command_rule.go:97-150 | for a rule and a command without flags: the same program, each word of the rule found by some word of the command, and without a star no more words than in the rule |
| CommandRule.FlagValueMatchExactly | internal/ai/command_rule.go:117-136 | a flag in a rule asks for that flag, with a value that the rule names by `*` or by a pattern; a command without the flag does not match |
| CommandRule.AttachedIsDetached | internal/ai/command_rule.go:30-52 | `--flag=value` and `--flag value` at the end of a command are the same to every rule |
| CommandRule.ClusterIsSeparate | internal/ai/command_rule.go:154-178 | `-abc` has the tokens of `-a -b -c` |
| Shell.ExtractSubCommands | internal/ai/command_shell.go:50-160 | the recursive walk that appends to one shared list returns, in order, the units given by the reference definition over the tree; what these units say is Shell.VisitedIsNamed and Shell.UnitIsOfVisited |
| Shell.Extractor.Visit | internal/ai/command_shell.go:98-153 | one visit appends exactly the units of the node and leaves what was collected before |
| Shell.Extractor.ExtractFromCall | internal/ai/command_shell.go:123-139 | a simple command with words appends the units inside its assignments, then exactly one own unit, then the units inside its words; the fields of the own unit are those of each NAME=value and then of each printed word, in order; assignments alone add no own unit |
| Shell.Extractor.ExtractFromRedirect | internal/ai/command_shell.go:104-117 | an output redirect to a target that is not safe adds the operator and target; substitutions inside any target are visited |
| Shell.CallUnits | internal/ai/command_shell.go:123-189 | the same law over the tree: what visiting a call adds, without naming how its text is put together |
| Shell.RedirectUnits | internal/ai/command_shell.go:104-117 | a redirection whose operator has a `>` and duplicates no descriptor adds the operator and the target, unless that is one of three safe files |
| Shell.VisitedIsNamed | internal/ai/command_shell.go:50-189 | every call that is visited, however deep, has a unit with its assignments and words in order |
| Shell.UnitIsOfVisited | internal/ai/command_shell.go:50-189 | and every unit is that of a call or of a write that is visited |
| UnitRules.ListedAssignmentIsTheProgram | internal/ai/command_rule.go:184-226 | a call with a listed assignment, after strippable ones or none, is matched only by `*` or by a rule whose program is that assignment |
| UnitRules.HiddenAssignmentsExactly | internal/ai/command_rule.go:184-257 | for any word without `=`: `NAME=x ls` is matched by `ls` iff the word is a variable name and none of those that decide what is run or loaded |
| UnitRules.PreloadIsNotListing | internal/ai/command_shell.go:130-133 | `LD_PRELOAD=/tmp/x.so ls` is extracted as it stands, and `ls *` does not match it |
| Shell.EventOrigin | internal/ai/command_shell.go:50-160 | every event of a run of a node is its own or comes from a run of one of the parts the walk visits |
| Shell.RunsAreReported | internal/ai/command_shell.go:50-160 | whatever branches, exits, loop counts and interleavings: each simple command executed and each write to an unsafe target is named by a unit |
| Shell.UnitsCanHappen | internal/ai/command_shell.go:50-160 | each unit names something that happens in some run; a declared function body adds nothing |
| Shell.ExtractionIsExact | internal/ai/command_shell.go:50-224 | a text is extracted if and only if some run executes a simple command or opens a file with that text |
| Shell.UnitsAreNotBlank | internal/ai/command_shell.go:164-189 | no unit is blank |
| PolicyModel.AppendUnique | internal/ai/query_policy.go:158-170 | the loop with its seen map appends the new items once each, in order |
| PolicyModel.UniqueIsUnion | internal/ai/query_policy.go:158-170 | the result has exactly the elements of both lists, the base first, and no new duplicates |
| PolicyModel.QueryVerdictExactly | internal/ai/query_policy.go:113-142 | the in-order result: Allow if and only if every statement is clear; Deny if and only if a denied statement has only clear ones before it |
| PolicyModel.ConfirmationHidesLaterDenial | internal/ai/query_policy.go:117-142 | a denied statement behind one that needs confirmation gives NeedConfirm |
| PolicyModel.PolicyValueExactly | internal/ai/policy_effective.go:14-16 | a listed statement type is `*` or names the type, whatever the case and the blanks around it |
| PolicyModel.RedisRuleExactly | internal/ai/redis_policy.go:31-93 | a Redis rule matches a command iff their words do: the same name of one or two words in any case, then nothing, a star, or a pattern for the first argument; `CONFIG *` takes every sub-command |
| Permission.MatchGrantPatterns | internal/ai/command_policy.go:199-254 | a pattern is returned exactly when every unit is matched by an item that applies to the asset or a group of its chain; it is the first hit |
| Permission.MoreGrantsCoverMore | internal/ai/command_policy.go:199-254 | more grants, or more groups reached, never take coverage away |
| Permission.ResolveGroupChain | internal/ai/command_policy.go:611-623 | the walk along parents yields the chain, at most five groups, and stops at a missing one |
| Permission.CollectRules | internal/ai/command_policy.go:432-608 | the rules of the asset, of its chain and of every group they refer to, in order |
| Permission.RuleOrigin | internal/ai/command_policy.go:432-608 | a rule is in force exactly when one of the collected policies has it or refers to a group that has it |
| Permission.AllSubCommandsAllowed | internal/ai/command_rule.go:279-303 | true exactly when there are rules and each unit matches one; the matched rules are rules that matched |
| Permission.CheckCommandPolicyPermission | internal/ai/permission.go:56-118 | returns the decision and its source given by deny, then allow, then grants |
| Permission.CommandDecisionExactly | internal/ai/permission.go:56-118 | with units: Deny iff some unit matches a deny rule; otherwise Allow iff the allow rules or the grants cover every unit; otherwise NeedConfirm |
| Permission.CommandVerdictMonotone | internal/ai/permission.go:56-118 | more deny rules only move results to Deny; more allow rules or grants never lose an Allow |
| Permission.CollectTypedPolicies | internal/ai/command_policy.go:455-592 | the first non-empty allow list along the chain wins, deny lists and flags are united without duplicates |
| Permission.EffectivePolicy | internal/ai/policy_effective.go:44-179 | the built-in defaults are merged into the collected policy; which rules that gives is PolicyLaw.GatheredRules |
| Permission.CheckGroupGenericPolicy | internal/ai/policy_tester.go:484-560 | the general rules of the chain decide first: Deny, Allow or no opinion |
| Permission.GroupRulesStep | internal/ai/policy_tester.go:62-86 | one more group of the chain contributes what it refers to and then its own rules |
| Permission.CheckQueryPolicyRules | internal/ai/query_policy.go:113-142 | the nested loops with early returns compute the in-order verdict characterised by QueryVerdictExactly |
| Permission.CheckListRules | internal/ai/redis_policy.go:102-127 | deny list first, then allow list if there is one, for Redis and Kubernetes commands |
| Permission.CheckPermission | internal/ai/permission.go:22-254 | dispatch by asset type: parse, general rules, own rules, and grants when a confirmation is needed; what it answers is stated over the stored policies by the PolicyLaw rows |
| PolicyLaw.GatheredRules | internal/ai/policy_effective.go:44-179 | a rule denies iff the policy of the asset or of a group, a permission group it refers to, or the built-in groups have it; it allows iff the nearest holder with any allow rule has it, or, without any, the built-in groups |
| PolicyLaw.RedisDecisionExactly | internal/ai/permission.go:181-213 | Redis: Deny iff a general rule or a deny rule of any holder or of the built-in groups matches; Allow iff not denied and matched by the allow rules in force (or there are none), by the general allow rules or by a grant |
| PolicyLaw.K8sDecisionExactly | internal/ai/permission.go:217-254 | Kubernetes: the same, unit by unit, each layer covering every unit by itself; without units NeedConfirm |
| PolicyLaw.QueryDecisionExactly | internal/ai/permission.go:122-178 | SQL: Deny for what cannot be parsed, for a general deny rule on the text of any statement, or for a statement of a denied type with only passing ones before it; Allow iff not denied and all statements pass, or the general rules or the grants cover every text |
| PolicyLaw.CommandDecisionByPolicies | internal/ai/permission.go:56-118 | terminals: Deny, Allow and the source of the answer over the stored policies; allow rules of all holders count, built-in ones do not |
| PolicyLaw.BuiltInDenyHolds | internal/ai/policy_effective.go:44-58 | a statement of a type that the built-in groups deny is denied, whatever the asset and its groups allow |
| PolicyLaw.ChainIsTheAncestors | internal/ai/command_policy.go:611-623 | a chain is the group and its ancestors, nearest first; it stops after five, cycles or not, and before the first that is not found |
| PolicyTester.ResolveGroupChainForTest | internal/ai/policy_tester.go:447-478 | the chain above the asset, or above the parent of the group, that is being edited |
| PolicyTester.CollectGroupGenericRules | internal/ai/policy_tester.go:62-86 | the rules of the chain, each tagged with a group of the chain |
| PolicyTester.FirstMatch | internal/ai/policy_tester.go:89-114 | a rule is returned exactly when one matches |
| PolicyTester.GroupAllowAll | internal/ai/policy_tester.go:243-265 | a rule is returned exactly when every unit has one; it is the first hit that carries the name of a group, and the last hit if none does |
| PolicyTester.MergePoliciesForTest | internal/ai/policy_tester.go:374-442 | the preview's own merge of the edited policy with its chain |
| PolicyTester.TestSSHPolicy | internal/ai/policy_tester.go:118-190 | the preview's verdict on a shell command; a non-empty source is a group of the chain |
| PolicyTester.TestPolicy | internal/ai/policy_tester.go:42-343 | the preview's verdict for each of the four kinds of policy |
| PolicyAgreement.MergesAgree | internal/ai/policy_tester.go:374-442 | runtime and preview merges give the same first allow list and the same deny rules up to order and repetition, for any policies |
| PolicyAgreement.GroupRulesAgree | internal/ai/policy_tester.go:62-86 | collecting a chain group by group and policy by policy gives the same rules up to order |
| PolicyAgreement.PreviewEqualsEnforcement | internal/ai/policy_tester.go:42-560 | for every asset, chain, references, grants and command, and each of the four kinds: the enforced decision is the preview's, except that it is Allow where the preview says NeedConfirm exactly when the session's grants reach every unit |
| PolicyAgreement.GroupPreviewEqualsEnforcement | internal/ai/policy_tester.go:447-478 | the preview of an edited group is the enforced decision for an asset with that policy below the parent of the group, up to grants |
| Approvals.GrantRepo.SaveGrantPattern | internal/ai/permission.go:449-482 | creates the session approved if there is none, and adds the pattern; an empty session or pattern changes nothing |
| Approvals.NormalizeGrantPatterns | internal/ai/permission.go:415-437 | shell commands are stored line by line and unit by unit, other types and serial commands as a whole |
| Approvals.HandleConfirm | internal/ai/command_policy.go:296-362 | the answer decides, and only allow-all stores: earlier items stay, and an item is added iff it comes from a line of an edit, or, if all edits are blank, of the command: as a unit of that line, the line if it has none, the whole text for other types |
| Approvals.PatternsExactly | internal/ai/command_policy.go:338-362 | what is stored, over the texts: with an edit that is not blank the command itself counts for nothing |
| Approvals.LinesExactly | internal/ai/permission.go:421-435 | the lines of a text are the stretches between its line breaks |
| Approvals.SavedIsGranted | internal/ai/permission.go:441-482 | after saving, a pattern is granted iff it was before, or it was saved and the session was new or approved |
| Approvals.ApprovalsAreConsistent | internal/ai/permission.go:441-482 | after any approvals in any sessions no item belongs to a session that does not exist, so the results on the next approval apply |
| Approvals.RepeatPassesExactly | internal/ai/command_policy.go:338-362 | after an allow-all with any edits, the same command passes iff the session is usable and each of its units is matched by something the answer stored or by an earlier grant; otherwise the user is asked again |
| Approvals.ApprovalStaysWithItsAsset | internal/ai/command_policy.go:199-254 | an approval for one asset grants nothing on another one |
| Approvals.ShellApprovalHolds | internal/ai/command_policy.go:338-362 | an unedited allow-all of a one-line shell command with plain units that begin with no strippable assignment: repeating it is allowed if and only if the session was new or approved |
| Approvals.WholeTextApprovalHolds | internal/ai/command_policy.go:338-362 | an unedited allow-all of a plain database or Redis command that is not made of several statements holds iff the session was new or approved |
| Approvals.AssignmentIsAskedAgain | internal/ai/permission.go:415-437 | the excluded family: a single unit that begins with a strippable assignment is asked about again |
| Approvals.SerialCompoundIsAskedAgain | internal/ai/permission.go:398-437 | a compound command on a serial asset is asked about again |
| Frames.Writer.WriteFrame | internal/sshpool/frame.go:28-46 | appends exactly the encoded frame, or refuses and writes nothing when the payload is over the limit |
| Frames.Reader.ReadFrame | internal/sshpool/frame.go:50-72 | consumes and returns what the reference decoder does, for a clean end, a cut stream and an oversized length |
| Frames.DecodeEncode | internal/sshpool/frame.go:28-72 | a written frame followed by anything is read back, leaving the rest |
| Frames.DecodeIsCanonical | internal/sshpool/frame.go:50-72 | whatever is read as a frame consumed exactly what writing that frame produces |
| Frames.CutFrameIsNotRead | internal/sshpool/frame.go:50-72 | no proper prefix of a frame is read as a frame, and only the empty one as a clean end |
| Frames.DecodeAllEncodeAll | internal/sshpool/frame.go:28-72 | any concatenation of written frames is read as exactly those frames |
| Frames.EncodeAllDecodeAll | internal/sshpool/frame.go:28-72 | a stream read to a clean end is the concatenation of the frames it was read as |
| Frames.ExitCodeRoundTrip | internal/sshpool/frame.go:75-100 | an exit code arrives modulo 2^32, unchanged for every int32 |
| Frames.ResizeRoundTrip | internal/sshpool/frame.go:87-110 | sizes and four-byte payloads correspond one to one |
| ExecStream.StepKeepsInv | internal/sshpool/server.go:241-342 | every step of the two pumps and the main goroutine keeps: written bytes are whole frames plus the part of one frame in progress, and each stream is sent plus in hand plus unread |
| ExecStream.NeverStuck | internal/sshpool/server.go:241-342 | until the closing frame is out, some goroutine can go on |
| ExecStream.ReadOutputFrames | internal/sshpool/client.go:294-326 | the reading loop writes and returns what the stream of frames means: a code and an error, with code 0 and no error for a stream that ends between two frames |
| ExecStream.ReceiveData | internal/sshpool/client.go:294-326 | any sequence of output frames adds exactly their payloads, by stream and in order |
| ExecStream.ClientReceivesEverything | internal/sshpool/server.go:241-342 | for every chunking and interleaving, a complete stream leaves the client with exactly the remote output and error bytes in order, and the code or error of the command; an error text too long for a frame is read as code 0 without an error |
| ExecStream.ClientResultExactly | internal/sshpool/client.go:294-326 | for any part of the bytes of any run: with the closing frame the client has the result of the command and both streams; without it, it returns code 0 and no error if and only if the bytes end exactly between two frames, and a bad stream otherwise |
| ExecStream.LostConnectionLooksLikeSuccess | internal/sshpool/client.go:297-300 | for any remote output and any exit there is a run in which the command has ended, and the connection, lost before the first frame, is read as code 0, no error and no output |
| ExecStream.ErrorIsReportedExactly | internal/sshpool/server.go:317-330 | a session that ended in an error is reported as that error if and only if its text fits a frame; otherwise as code 0 without an error |
| ExecStream.ClientIsNeverAhead | internal/sshpool/client.go:294-326 | at any moment and for any part of the bytes that arrived, the client holds a prefix of each stream, and a code other than 0 or a remote error comes only with both streams complete |
| Transfer.SendChunks | internal/sshpool/client.go:138-153 | the chunk loop sends one frame for each read that returned bytes and stops at the end or at an error |
| Transfer.SendFile | internal/sshpool/client.go:138-158 | the chunks, and the end marker only when the local file was read to its end |
| Transfer.AwaitReply | internal/sshpool/client.go:160-172 | success means that the next frame is OK |
| Transfer.HandleDownload | internal/sshpool/server.go:445-466 | the frames of the reads, then the end marker or the error text |
| Transfer.HandleUpload | internal/sshpool/server.go:380-408 | the file gets the payloads up to the end marker, and the answer is OK exactly then |
| Transfer.ReceiveFile | internal/sshpool/client.go:188-206 | the client's loop writes the payloads and succeeds exactly at the end marker |
| Transfer.DownloadDelivers | internal/sshpool/client.go:176-207 | for any reads of at most 32 KiB: the local file is exactly the bytes that could be read, and the download succeeds exactly when the remote file was read to its end |
| Transfer.CutDownloadIsNoticed | internal/sshpool/client.go:188-206 | a download cut off anywhere fails and has written a prefix of the file |
| Transfer.UploadDelivers | internal/sshpool/client.go:126-173 | an upload succeeds exactly when the local file was read to its end and the remote side could take it; then both files are equal, otherwise the remote one is a prefix |
| Transfer.CutUploadIsNoticed | internal/sshpool/server.go:380-408 | an upload cut off anywhere is not answered with OK |
| Quoting.BuildQuotedKubectlCommand | internal/ai/tool_handler_k8s.go:278-285 | the loop joins kubectl and the quoted arguments |
| Quoting.RunReplaced | internal/ai/tool_handler_k8s.go:287-292 | inside single quotes, the replaced text is read as exactly the original characters, all quoted |
| Quoting.KubectlReadsBack | internal/ai/tool_handler_k8s.go:278-292 | a shell lexer following sections 2.2.2 and 2.2.3 of the POSIX.1-2017 Shell Command Language reads the command as kubectl and exactly the arguments, with nothing left to expand, for any strings |
| Quoting.RemoteCommandReadsBack | internal/ai/tool_handler_k8s.go:273-275 | also after the second quoting: the login shell starts sh with -lc and the script as one argument |
| Quoting.ScriptRunsKubectl | internal/ai/tool_handler_k8s.go:273-275 | in the script the tokens are those of the setup, the words of the kubectl command, and those of the cleanup, whatever the arguments contain |
| Quoting.ShellWordLiteral | internal/ai/tool_handler_k8s.go:184-212 | concatenates the literal parts through nested double quotes and refuses any expansion |
| Quoting.ParseK8sCommandArgs | internal/ai/tool_handler_k8s.go:124-182 | the checks and loops accept exactly a single plain command of literals, drop empty arguments and one leading kubectl, and refuse a --kubeconfig flag |
| Quoting.ParsesBackExactly | internal/ai/tool_handler_k8s.go:124-292 | parsing a quoted command gives the arguments back if and only if there are some, none is empty and none is a --kubeconfig flag |
| Quoting.QuotedCommandHasTree | internal/ai/tool_handler_k8s.go:184-212 | every quoted command has a syntax tree of the kind ParsesBackExactly speaks of |
| Quoting.AcceptedIsPlain | internal/ai/tool_handler_k8s.go:124-182 | only a single command without redirections, assignments and expansions is accepted, with an argument, and none that names another kubeconfig |
| Quoting.BaseNameExactly | internal/ai/tool_handler_k8s.go:214-220 | the directory in front of the program does not matter, with slashes or backslashes |
| KafkaPool.StepKeepsInv | internal/connpool/kafka.go:61-177 | every critical section, dial and close keeps the reference counts equal to the borrows and the close calls exact |
| KafkaPool.ClosedOnceAndNeverInUse | internal/connpool/kafka.go:61-177 | over every run: a client is closed at most once and never while borrowed or mapped; an entry is mapped iff it is not closing; it is closed or due iff it is closing and unborrowed |
| KafkaPool.NothingLeaks | internal/connpool/kafka.go:61-144 | when the map is empty and all borrowers have released, every dialed client has been closed exactly once |
| KafkaPool.RetiredIsNotLent | internal/connpool/kafka.go:69-97 | a client that was evicted or closed is never handed out again |
| KafkaPool.LookUpRetiresExactly | internal/connpool/kafka.go:69-78 | over every run: a look-up retires the clients that have not been handed out for longer than the limit and those of the asset with another configuration, and no others |
| KafkaPool.CloseAssetExactly | internal/connpool/kafka.go:112-124 | closing an asset takes out its clients, whatever their configuration, and no others |
| KafkaPool.OfferEvictsOldest | internal/connpool/kafka.go:158-177 | over every run: a client that has to make room was not handed out later than any that stays |
| KafkaPool.MapStaysBounded | internal/connpool/kafka.go:158-177 | between critical sections the map never exceeds its limit |
| KafkaPool.RetireOneMore | internal/connpool/kafka.go:112-177 | taking out one entry after the other is the same as taking out all at once |
| KafkaPool.KafkaClientManager.CloseStaleLocked | internal/connpool/kafka.go:146-156 | exactly the entries idle longer than the limit, or of the same asset with another fingerprint, are taken out; the idle ones among them are closed |
| KafkaPool.KafkaClientManager.EvictOverflowLocked | internal/connpool/kafka.go:158-177 | exactly as many entries as the map has too many are taken out, and none was used later than one that stays |
| KafkaPool.KafkaClientManager.TakeCached | internal/connpool/kafka.go:69-78 | the first critical section of Acquire as a step of the machine |
| KafkaPool.KafkaClientManager.Store | internal/connpool/kafka.go:85-97 | the second critical section: the entry stored meanwhile wins and the duplicate is due for closing; otherwise the new one is stored and the map trimmed |
| KafkaPool.KafkaClientManager.GiveBack | internal/connpool/kafka.go:100-110 | a release closes the client exactly when its entry is closing and this was the last borrow |
| KafkaPool.KafkaClientManager.RemoveAsset | internal/connpool/kafka.go:112-124 | takes out exactly the entries of the asset and returns those to close |
| KafkaPool.KafkaClientManager.RemoveAll | internal/connpool/kafka.go:130-140 | empties the map and returns the unborrowed clients to close |
| ConnCaches.StepKeepsInv | internal/ai/conn_cache.go:34-126 | every step of the callers, the single-flight call and the closers keeps each connection in one place |
| ConnCaches.EveryConnectionHasOnePlace | internal/ai/conn_cache.go:34-126 | over every run: the two maps have the same keys, and each dialed connection is with its dialer, cached under its id, forgotten, or closed (or due) exactly once together with its tunnel |
| ConnCaches.StoreNeverOverwrites | internal/ai/conn_cache.go:71-90 | a store never replaces a cached connection |
| ConnCaches.OneDialBetweenRemovals | internal/ai/conn_cache.go:62-126 | two successful dials for one id are separated by a removal, a forget, an eviction or a close |
| ConnCaches.ResultWasCached | internal/ai/conn_cache.go:71-95 | what a call and its waiters get was cached at a moment between the start of the call and its end |
| ConnCaches.ConnCache.RemoveOne | internal/ai/conn_cache.go:99-105 | takes the connection and its tunnel out and returns exactly what has to be closed |
| ConnCaches.ConnCache.ForgetOne | internal/ai/conn_cache.go:121-126 | takes the connection out without closing it |
| ConnCaches.ConnCache.DetachAll | internal/ai/conn_cache.go:34-40 | empties both maps and hands their contents to the closing loops |
| ConnCaches.ConnCache.CloseTunnels | internal/ai/conn_cache.go:46-52 | the loop closes each tunnel once |
| ConnCaches.PanelConnCache.CheckAgain | internal/app/query_conn_cache.go:60-70 | the second look inside the single-flight call; a hit counts as a use |
| ConnCaches.PanelConnCache.EvictOnce | internal/app/query_conn_cache.go:131-148 | drops exactly the entries last used before now minus the limit, as one removal step of the protocol |
| ConnCaches.PanelConnCache.TakeOne | internal/app/query_conn_cache.go:91-100 | drops one entry and returns what has to be closed |
| ForwardManager.ConnectionsAreClosedOnce | internal/app/forward_manager.go:80-162 | over every run, even with clashing rule ids: a dialed connection is the one in use for its asset, or closed exactly once |
| ForwardManager.StartKeepsCountsExactly | internal/app/forward_manager.go:80-124 | starting keeps the counts exact if and only if the rule ids are distinct and none runs under another configuration |
| ForwardManager.StoppedIsCounted | internal/app/forward_manager.go:133-141 | stopping keeps the counts exact, and gives a connection up exactly when its last rule stops |
| ForwardManager.RunIsCounted | internal/app/forward_manager.go:80-162 | over every run of clean starts: an asset has a connection iff rules run on it, counted once for each |
| ForwardManager.StopIsExact | internal/app/forward_manager.go:127-141 | stopping a configuration stops exactly its rules and closes exactly the connections no remaining rule uses |
| ForwardManager.StopOneMore | internal/app/forward_manager.go:133-141 | stopping rule after rule is the same as stopping them at once |
| ForwardManager.StartIsExact | internal/app/forward_manager.go:80-124 | after a start: the rules of other configurations run as before, and with a connection the given ones, each with the text of its error; the earlier rules of the configuration are cancelled, and so is each rule that fails |
| ForwardManager.Manager.ReleaseClientLocked | internal/app/forward_manager.go:234-250 | counts down, and at zero closes the connection and removes it |
| ForwardManager.Manager.StopConfigLocked | internal/app/forward_manager.go:133-141 | the loop stops exactly the rules of the configuration, in any order of the map |
| ForwardManager.Manager.StopConfig | internal/app/forward_manager.go:127-131 | stopping a configuration as a step of the runs above |
| ForwardManager.Manager.StartConfig | internal/app/forward_manager.go:80-124 | the error cases in order; a failed dial still leaves the old rules stopped; otherwise exactly the given rules run |
| ForwardManager.Manager.StopAll | internal/app/forward_manager.go:144-162 | cancels every rule, closes every connection, empties both maps |
| ForwardManager.Manager.GetConfigStatus | internal/app/forward_manager.go:165-189 | stopped, error, running or partial exactly as all, some or none of the rules failed |
| SshPool.StepKeepsInv | internal/sshpool/pool.go:70-267 | every step of overlapping Get, Remove, cleanup and Close calls keeps ownership of each connection exact |
| SshPool.EveryConnectionHasOneOwner | internal/sshpool/pool.go:122-267 | over every interleaving: a dialed connection is mapped under its asset, or with exactly one call that will store or close it, or closed exactly once |
| SshPool.FlagIsNeverNeeded | internal/sshpool/pool.go:70-88 | no step finds the closed flag set on an entry it is about to close |
| SshPool.GetReturnsTheAsset | internal/sshpool/pool.go:122-178 | what Get returns was dialed for the asset asked for, through retries and lost races |
| SshPool.ReleaseIsExact | internal/sshpool/pool.go:181-188 | a release keeps the counts exact if and only if the connection given back is still in the pool or nothing has taken its place |
| SshPool.StepExactly | internal/sshpool/pool.go:122-267 | a step keeps the counts exact and everything in use in the pool if and only if the removal, sweep or close it makes takes out only entries that nobody holds and no call has looked up |
| SshPool.RunIsExactExactly | internal/sshpool/pool.go:122-267 | the counts are exact all along a run if and only if every one of its steps is of that kind |
| SshPool.BorrowedStaysOpen | internal/sshpool/pool.go:122-267 | as long as no step takes out an entry that is held or about to be acquired, a borrowed connection is open and mapped and its count is the number of its borrows |
| SshPool.SweepCanCloseBorrowed | internal/sshpool/pool.go:181-267 | a run with a step that is not: a held entry is removed, and in the end the idle sweep closes a borrowed connection |
| SshPool.Pool.StoreEntry | internal/sshpool/pool.go:152-175 | the critical section of Get: an entry stored meanwhile is kept |
| SshPool.Pool.RemoveEntry | internal/sshpool/pool.go:191-197 | takes the entry out and returns it for closing |
| SshPool.Pool.CleanupIdleEntries | internal/sshpool/pool.go:251-267 | the two loops remove and close exactly the entries without borrows that were idle too long |
| SshPool.Pool.CloseAll | internal/sshpool/pool.go:226-231 | closes and removes every entry |
| LocalGate.LocalToolGate.AllMatch | internal/ai/local_tool_gate.go:127-152 | true exactly when there are patterns and each subject is matched by one of the same tool |
| LocalGate.LocalToolGate.Remember | internal/ai/local_tool_gate.go:109-125 | adds the trimmed pattern once; other conversations are untouched |
| LocalGate.LocalToolGate.Middleware | internal/ai/local_tool_gate.go:57-102 | a call passes unasked iff every unit of the command (the whole if it cannot be split), or the path, is taken by a pattern of that tool; a blank one and other tools always; an allow-all adds the lines of the edits, or, if all are blank, the first word of each unit with a star, or the path; every other answer adds nothing |
| LocalGate.PatternsComeFromAnswers | internal/ai/local_tool_gate.go:57-125 | over every run: a conversation's patterns are free of duplicates and each comes from an allow-all answer in that conversation since its last reset |
| LocalGate.PatternsOnlyGrow | internal/ai/local_tool_gate.go:105-125 | between resets the patterns only grow, at the end |
| LocalGate.RefusalChangesNothing | internal/ai/local_tool_gate.go:70-92 | a call is refused exactly without a matching pattern and with a denial or no way to ask, and then nothing changes |
| LocalGate.OnlyAllowAllMatters | internal/ai/local_tool_gate.go:70-92 | over every run, the patterns of a conversation are those of its resets and allow-all answers alone; refused calls, calls allowed once and other conversations leave no trace |
| DefaultRule.TailMatchesExactly | internal/ai/command_rule.go:30-52 | combined short flags with a star against the same flags with any further tokens: they match iff the last flag is a character of several bytes or the further tokens add no operand and no flag |
| DefaultRule.DefaultRuleExactly | internal/ai/local_tool_gate.go:254-264 | the default pattern of any non-blank command accepts the command if and only if: a first word of one token is no strippable assignment; after combined short flags the command adds no operand and no flag, unless the last of them is a character of several bytes |
| LocalGate.SubjectsAreSubjects | internal/ai/local_tool_gate.go:170-192 | what a call is judged by is never blank, and a path is trimmed |
| LocalGate.ApprovedPassesExactly | internal/ai/local_tool_gate.go:242-283 | after an unedited allow-all, with any earlier patterns and any number of subjects: the same call passes without a question if and only if each subject passed already or is accepted by the default of some subject |
| LocalGate.OwnDefaultExactly | internal/ai/local_tool_gate.go:156-167 | the default of a subject accepts it iff it is a path, a command accepted by its own rule, or itself of the form of its rule |
| LocalGate.ApprovedPassesUnasked | internal/ai/local_tool_gate.go:242-283 | so a call passes again when each subject is a path or a command accepted by its own rule |
| LocalGate.FirstUnitIsAskedAgainExactly | internal/ai/local_tool_gate.go:242-283 | for the first command of a conversation, of one unit of any kind: after the approval it passes if and only if its own rule accepts it or it has the form of its rule |
| LocalGate.ShortFlagsAreAskedAgain | internal/ai/local_tool_gate.go:254-264 | an input that is asked again although it begins with no assignment: two combined flags and two operands |
| Batch.Decide | internal/ai/tool_handler_batch.go:76-134 | a command may run iff its asset was found, and nobody checks, or the policy allows it, or it is open, the checker can ask and the user accepts; the dialog is shown at most once, and only if something is open |
| Batch.Partition | internal/ai/tool_handler_batch.go:136-143 | splits the commands into those to run and the others, in order |
| Batch.ExecutionIsBounded | internal/ai/tool_handler_batch.go:145-172 | at any moment of any schedule: at most ten commands are being executed, only those decided to run are dispatched, none twice |
| Batch.OneResultEach | internal/ai/tool_handler_batch.go:145-172 | when all goroutines have finished: exactly the commands decided to run were dispatched to executeBatchItem, and there is one result for each command, those not dispatched first and in order |
| Batch.DispatchedExactly | internal/ai/tool_handler_batch.go:76-172 | in any finished run a command is dispatched iff it may run, and comes back as denied otherwise |
| Batch.RefusedIsNotDispatched | internal/ai/tool_handler_batch.go:126-128 | at no moment of any run is a command dispatched that the policy denies, or that was open when the user refused the batch |
| Batch.ExecuteBatchItem | internal/ai/tool_handler_batch.go:181-214 | a dispatched command is given to a connection, or comes back as of unknown type, incomplete, refused by the handler's own check (which may ask the user about this command alone), without an asset of its type, without a connection, or as text the handler does not send |
| Batch.HandedOverExactly | internal/ai/database_helper.go:64-119 | in any finished run, a command is given to a connection if and only if the batch decided to run it, its type is known, its asset and text are there and (for Redis) not blank and not SELECT, and when it runs its second check passes (no checker, allowed by then, or accepted by the user once more) and there is a connection: for a shell command a cached one or a new one to an SSH asset, otherwise either of these to an asset of the right type |
| Batch.AskedAgainExactly | internal/ai/command_policy.go:287-293 | in any finished run the user is asked about a command alone exactly once if it is dispatched with a checker that can ask and the policy leaves it open when it runs, and otherwise never |
| Batch.AcceptedIsAskedAgain | internal/ai/command_policy.go:287-293 | in any finished run of an accepted batch, a command that the policy still leaves open is asked about again, and is refused iff the second answer is no |
| Batch.NeverStuck | internal/ai/tool_handler_batch.go:158-172 | until all have finished, some goroutine can go on |
| EventStream.EventTranslator.Translate | internal/ai/stream_event.go:40-151 | what one event emits and the new state of the thinking flag |
| EventStream.TranslateAll | internal/ai/stream_event.go:40-151 | a translator fed event after event emits the whole stream |
| EventStream.ContractIsKept | internal/ai/stream_event.go:40-151 | for any events: every thinking_done closes an open run, and no content, tool start, usage, queue or done event comes while one is open |
| EventStream.OthersPassThrough | internal/ai/stream_event.go:40-151 | errors, retries, tool results and the like neither close an open run of thinking nor open one |
| EventStream.FinishedStreamIsClosed | internal/ai/stream_event.go:79-138 | a stream that ends with a turn, a steer, a text, a tool call or the final event leaves no run of thinking open |
| EventStream.NothingElseIsAdded | internal/ai/stream_event.go:40-151 | apart from the inserted thinking_done, the stream is the images of the events in order |
| EventStream.TextIsKept | internal/ai/stream_event.go:40-48 | the emitted content and thinking are the input deltas in order |
| EventStream.EventsComeBack | internal/ai/stream_event.go:40-151 | from the stream of any events all of them can be read back, in order and unchanged, but for events without a tool or usage and the two that say nothing new |

## Left out

- Shell.ExtractionIsExact: speaks of the syntax the walk visits. Heredoc bodies and array assignments are not in the
  tree, and calling a function is one opaque command. The words of `declare`, `export`, `let`, `[[ ]]` and `(( ))` are
  visited for substitutions, but these commands themselves are neither units of the walk nor events of a run.
- CommandRule.Tokenize: texts are sequences of Unicode scalar values; invalid UTF-8 is not modelled.
- Quoting.ParsesBackExactly: the shell parser is represented by any syntax tree that agrees with the lexer; escapes
  outside quotes and every kind of expansion have no tree here.
- Quoting.KubectlReadsBack: characters are not checked for NUL, which no argument of a process can contain.
- ExecStream.ClientReceivesEverything: goroutines are steps, not loops; failing writes on the connection, terminal mode
  (which merges both streams), and the input and resize direction are not modelled.
- Transfer.UploadDelivers: a failing write of the remote file is a quota that a write either fits into or not; the
  handshake, failing writes of the local file and the remote-to-remote copy are not modelled.
- KafkaPool.ClosedOnceAndNeverInUse: a releaser is called once for each borrow, as its callers do.
- LocalGate.LocalToolGate.Remember: loading and storing the patterns is one step; two answers in one conversation that
  overlap exactly there can lose a pattern in the original.
- Glob.MatchIsExact: its conditions are sufficient; a few patterns outside them are exact all the same, such as `*[/]*`,
  whose class takes nothing but the slash, and `*??*a`, where a fit inside a character leaves nothing for the rest.
- Batch.HandedOverExactly: that the shell handler tries a command on a cached connection a second time, over a new
  connection, when it fails in any way is not modelled.
- Batch.Decide: the policy's verdicts, at first and when a handler checks again, are inputs; they are the subject of
  Permission.CheckPermission, and what an answer stores is that of Approvals.HandleConfirm.
- Mongo, Kafka and extension policies, which follow the same scheme with other operation tables.
- SQL classification, JSON of policies (unreadable policies count as absent), and the databases behind the repositories.
- Case folding beyond ASCII in rule values; the texts of messages and hints, the matched pattern shown to the user,
  audit records and prompts.
- The fingerprint of a Kafka configuration and the normalisation of its brokers; the cache key is the pair of asset and
  fingerprint instead of its printed form.
- The command line of kubectl with the default context and namespace put in front, and the token counts of usage
  events.
- Sockets, TLS, credentials, the SOCKS proxy, the front end, updates, backups and skills.
