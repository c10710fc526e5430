# leftovers: the selection front end, in Dafny

`leftovers` lists the resources left behind in a cloud account, filters
them by name, asks the operator to confirm each one, and hands the
confirmed set to an asynchronous deleter. This project models the
sequential selection logic that decides which resources reach the deleter.
It also proves what that logic promises.

- `RegexMatch` models `common.MatchRegex`, the name filter. An empty name
  never matches. An empty filter matches every other name. Otherwise the
  filter is either run as a regular expression or searched for as a
  literal substring. The regular-expression library is left uninterpreted
  as a `RegexEngine` value. `strings.Contains` is defined and proved equal
  to "occurs at some position".
- `Ec2NetworkInterfaces` models `ec2.NetworkInterfaces`. `List` describes
  the interfaces once, prompts only for those whose name passes the filter,
  and keeps those the operator confirms, in order. The EC2 client is a
  class that records its calls. This shows that listing never calls
  `DeleteNetworkInterface`.
- `OpenStackLeftovers` models `openstack.Leftovers`: `List`, `ListByType`,
  `Types`, `Delete` and `DeleteByType`. Each configured resource kind
  (`listTyper`) is a value that gives its type and what its `List()` does:
  what it logs on the shared logger while listing (its confirmation
  prompts, for instance), the resources it returns, and its error. A
  `ListingBackend` object replays that log and records which kinds were listed, in
  order.
- `App` holds the collaborators. The logger is an append-only record of
  the calls made on it: printed lines with their colour, prompts, and
  `NoConfirm`. The deleter records every batch of groups it receives and
  returns an outcome fixed by a function of that batch.
- `Sequences` holds the order-preserving filter and its lemmas:
  subsequence, exactly the passing positions, membership in both
  directions, emptiness, and composition of filters. The EC2 `List` loop
  is specified with it directly. The `DeleteByType` loop is specified with
  `OfType`, a filter by type without a lambda, which is proved equal to
  `Filter` (`OfTypeIsFilter`).
- `Common` holds `Option`, `Result` and the `Deletable` handle (type and
  name).

A resource kind whose listing fails is not skipped. The error is logged in
yellow, and whatever `List()` returned is still appended as that kind's
group (openstack/leftovers.go:149-154, :174-179). `Delete` and
`DeleteByType` state exactly that.

## Model

| member | source | states |
|---|---|---|
| RegexMatch.MatchRegex | common/regex_match.go:8-24 | An empty name never matches. A non-empty name matches an empty filter whatever the regex flag. Without the flag, the result is true iff the filter occurs in the name. With the flag, the result is exactly the engine's verdict. A pattern that would panic in `MustCompile` is excluded by the precondition. |
| RegexMatch.Contains | common/regex_match.go:16 | `strings.Contains` is true iff `sub` occurs in `s` at some position. |
| RegexMatch.EmptyFilterIgnoresRegexFlag | common/regex_match.go:19-20 | With an empty filter, the regex flag does not change the result, and the result is true iff the name is non-empty. |
| RegexMatch.LiteralSelfMatch | common/regex_match.go:15-16 | Read literally, every non-empty name matches itself used as the filter. |
| RegexMatch.LiteralFilterWidening | common/regex_match.go:15-16 | Read literally, a name that matches a filter also matches every non-empty substring of that filter. |
| Sequences.Filter | aws/ec2/network_interfaces.go:35-47 | The order-preserving selection never returns more elements than it is given. |
| Sequences.FilterIsSubsequence | aws/ec2/network_interfaces.go:35-47 | What is kept is the input with some elements dropped and the rest in their original order. |
| Sequences.FilterKeepsEveryPassingPosition | aws/ec2/network_interfaces.go:35-47 | The positions kept are exactly the positions whose element passes the test, in order. An element that occurs twice and passes is kept twice. |
| Sequences.FilterMembership | aws/ec2/network_interfaces.go:38-47 | An element is kept iff it occurs in the input and passes the test. |
| Sequences.FilterEmptyIff | openstack/leftovers.go:172-180 | Nothing is kept iff no element passes the test. |
| Sequences.FilterConjunction | aws/ec2/network_interfaces.go:38-45 | Filtering by two tests in sequence (the second seeing only what the first kept) equals filtering by their conjunction. |
| Ec2NetworkInterfaces.NetworkInterfacesClient.DescribeNetworkInterfaces | aws/ec2/network_interfaces.go:12 | Returns the account's interfaces or its error, and records one Describe call. |
| Ec2NetworkInterfaces.NetworkInterfacesClient.DeleteNetworkInterface | aws/ec2/network_interfaces.go:13 | Records one Delete call for the given interface id. |
| Ec2NetworkInterfaces.NetworkInterfaces.constructor | aws/ec2/network_interfaces.go:21-26 | The object keeps the client and logger it is given. |
| Ec2NetworkInterfaces.NetworkInterfaces.List | aws/ec2/network_interfaces.go:28-51 | The client sees exactly one Describe call and no Delete call. If Describe fails, `List` returns no resources and the error behind "Describing EC2 Network Interfaces: ", and asks nothing. Otherwise it returns exactly the described interfaces that match and are confirmed, in order. It prompts exactly once per matching interface, in order, with that resource's type and name. |
| Ec2NetworkInterfaces.NetworkInterfaces.Type | aws/ec2/network_interfaces.go:53-55 | The type tag is always "ec2-network-interface". |
| Ec2NetworkInterfaces.ConfirmedAmongPrompted | aws/ec2/network_interfaces.go:38-47 | The returned resources are exactly those answered "yes" among the prompted ones, in prompt order. So nothing is returned without first being prompted for. |
| Ec2NetworkInterfaces.SelectionIsOrderedSubsequence | aws/ec2/network_interfaces.go:35-47 | The returned resources are a subsequence of the described interfaces, in the same relative order. There are at most as many as there are described interfaces. |
| Ec2NetworkInterfaces.SelectedIff | aws/ec2/network_interfaces.go:36-47 | A resource is returned iff some described interface yields it, its name matches the filter, and the prompt answered yes. |
| Ec2NetworkInterfaces.OnePromptPerMatch | aws/ec2/network_interfaces.go:35-42 | There is one prompt for every described interface whose name matches, in listing order, and none for any other. Two matching interfaces with the same type and name are both prompted for. |
| Ec2NetworkInterfaces.PromptsOnlyForMatches | aws/ec2/network_interfaces.go:38-42 | Every prompt is for a described interface whose name matches the filter. An interface that does not match is never prompted for. |
| App.Logger.Println | openstack/leftovers.go:23 | Appends one line, with its colour, to the record of calls. |
| App.Logger.PromptWithDetails | openstack/leftovers.go:25 | Records the prompt for (type, name) and returns the operator's answer for it. |
| App.Logger.NoConfirm | openstack/leftovers.go:26 | Records that confirmation was switched off. |
| App.AsyncDeleter.Run | openstack/leftovers.go:157 | Records the groups it is handed and returns the outcome for them. |
| OpenStackLeftovers.ListingBackend.List | openstack/leftovers.go:16 | Returns what the resource kind lists, with its error. Appends what the kind logs while listing to the shared logger (the kinds are built on that logger, openstack/leftovers.go:91-93), and records that the kind was listed. |
| OpenStackLeftovers.Leftovers.ListLogged | openstack/leftovers.go:149-154 | Lists one kind. The logger receives what the kind's `List()` logs, then its listing error in yellow, if any. The listed group is kept anyway. |
| OpenStackLeftovers.Leftovers.List | openstack/leftovers.go:98-120 | Confirmation is switched off first. A non-empty filter gives a single yellow warning and lists nothing. Otherwise every kind is listed in order. The logger receives, kind after kind, what that kind's `List()` logs and then its error line, without stopping. Then one `[type: name]` line is printed per listed resource. |
| OpenStackLeftovers.Leftovers.CollectListed | openstack/leftovers.go:106-115 | Lists every kind in order. The logger receives each kind's own log and then its error line, without stopping. Returns everything listed, group after group. |
| OpenStackLeftovers.Leftovers.CollectNext | openstack/leftovers.go:109-114 | One pass of the `List` loop: takes the listing of the kinds before position `i` to the listing of the kinds up to and including it. The logger receives that kind's own log and its error line, and the backend records that kind. |
| OpenStackLeftovers.Leftovers.PrintListing | openstack/leftovers.go:117-119 | Prints one `[type: name]` line per resource, in order. |
| OpenStackLeftovers.Leftovers.ListByType | openstack/leftovers.go:123-125 | Ignores the type and has exactly `List`'s effect and log. |
| OpenStackLeftovers.Leftovers.Types | openstack/leftovers.go:129-135 | Confirmation is switched off, then each kind's type is printed once, in resource order. |
| OpenStackLeftovers.Leftovers.Delete | openstack/leftovers.go:141-158 | A non-empty filter returns "--filter is not supported for OpenStack." It logs nothing, lists nothing and does not call `Run`. Otherwise every kind is listed in order. The logger receives, kind after kind, what that kind's `List()` logs (its confirmation prompts) and then its error line, without stopping. `Run` receives exactly one group per kind, in resource order. `Delete` returns what `Run` returns. |
| OpenStackLeftovers.Leftovers.CollectOfType | openstack/leftovers.go:170-180 | Lists exactly the kinds of the requested type, in order. The logger receives each such kind's own log and then its error line. It returns one group per such kind. |
| OpenStackLeftovers.Leftovers.DeleteByType | openstack/leftovers.go:164-184 | A non-empty filter logs the red abort line and returns "cannot delete openstack resources using a filter". It lists nothing and does not call `Run`. Otherwise only kinds whose type equals `rType` are listed. The logger receives, kind after kind, what each of them logs while listing and then its error line. `Run` receives their groups one-to-one and in order. `DeleteByType` returns what `Run` returns. |
| OpenStackLeftovers.OfTypeIsFilter | openstack/leftovers.go:172-173 | The kinds `DeleteByType` lists are the order-preserving filter of the configured kinds by type. |
| OpenStackLeftovers.TypedSelection | openstack/leftovers.go:172-179 | A kind is listed by `DeleteByType` iff it is configured and its type equals `rType`. The listed kinds keep their configured order. |
| OpenStackLeftovers.OneGroupPerTypedKind | openstack/leftovers.go:170-180 | `DeleteByType` lists one kind for every configured kind of the requested type, in order, and no other kind. Two configured kinds of the same type give two groups. |
| OpenStackLeftovers.TypedGroupsEmptyIff | openstack/leftovers.go:170-183 | `Run` receives an empty slice of groups iff no configured kind has the requested type. |
| OpenStackLeftovers.ErrorLinesInListingLog | openstack/leftovers.go:148-154 | The error lines reach the logger in resource order, interleaved only with what the kinds' own `List()` calls log. |
| OpenStackLeftovers.ListingLogOfSilentKinds | openstack/leftovers.go:148-154 | When no kind logs anything itself while listing, the error lines are all the logger receives. |
| OpenStackLeftovers.ErrorLinesIff | openstack/leftovers.go:149-152 | `Leftovers` logs an error line with a given colour and text iff some kind's listing failed with that message, and that line is yellow. |
| OpenStackLeftovers.ErrorLinesAreFailures | openstack/leftovers.go:149-152 | The error lines are exactly one yellow line per failing kind, carrying that kind's message, in resource order. |
| OpenStackLeftovers.ErrorLinesPerFailure | openstack/leftovers.go:149-152 | Exactly one error line is logged per failing kind. |

## Left out

- `NewLeftovers` (openstack/leftovers.go:47-95): authentication and client construction, which are I/O plumbing. A `Leftovers` is built directly from its logger, deleter, resource kinds and listing backend.
- `app.AsyncDeleter.Run` (openstack/leftovers.go:157, :183) is left abstract: it only records its argument and returns an outcome that is a fixed function of that argument. The deleter is built on the same logger (openstack/leftovers.go:89); whatever `Run` logs is not modelled.
- The regular-expression engine behind `regexp.MustCompile` and `MatchString` is an uninterpreted `RegexEngine` value. An invalid pattern, which panics in the source, is excluded by `MatchRegex`'s precondition instead of being modelled as a panic.
- `common.ResourceMatches` and `NewNetworkInterface` are not part of this model. They are taken as the function fields `resourceMatches` and `newNetworkInterface` of `NetworkInterfaces`. Nothing assumes that `ResourceMatches` is `MatchRegex`.
- Ec2NetworkInterfaces.NetworkInterfaces.List: the operator's answer is a fixed function of (type, name). Two interfaces with the same type and name therefore always get the same answer. A console that answered them differently is not modelled.
- `NoConfirm` is only recorded. Its effect on later prompts belongs to the logger implementation, which is not part of this model.
- Colour escape codes and `fmt` formatting: a line is its text plus a colour tag. The `[type: name]` listing line is built by string concatenation.
- Strings are sequences of Unicode characters. Go's `len` and `strings.Contains` (common/regex_match.go:9-10, :16) work on the bytes of the string. The two agree on valid UTF-8: `len` is only compared with zero, and a substring occurs as bytes exactly when it occurs as characters. A Go string that is not valid UTF-8 cannot be represented.
- A resource kind's `List()` gives the same answer every time it is called: the same resources, the same error and the same log. What it logs is a given sequence of logger calls. That it prompts once per candidate and keeps what the operator confirms is proved for the EC2 kind only. The compute, volume and image kinds are not part of this model. `nil` slices are empty sequences. AWS pointer fields such as `NetworkInterfaceId` are plain strings.
