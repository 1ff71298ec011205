# Tailchrome routing: a Dafny model

Tailchrome is a browser extension with a native helper. The extension decides, for each request, whether it goes to the
helper's local proxy, goes direct, or is blocked; the helper decides what its proxy may reach. Both halves are state
machines that have to stay right across asynchronous callbacks, restarts, account switches, concurrent goroutines and
failing file operations. This project models those machines and proves what they promise, over every input and every run.

The pattern is the same throughout. A protocol is a pure step function over a state, with a lemma that every step keeps an
invariant and theorems over all runs. Where the program updates fields in place, a class has the same fields and methods,
and each method is proved to perform exactly its step, so the theorems about runs are theorems about the class. Parsers and
matching loops are methods proved against mathematical definitions (a prefix is a quotient of a 128-bit value, a route is a
set of addresses), and the theorems are about those definitions.

| file | part of the program |
|---|---|
| `Text.dfy` | options, splitting and joining, decimal text |
| `Prefixes.dfy` | prefixes of multi-word addresses as quotients of their value |
| `Ipv6Text.dfy` | IPv6 text (section 2.2 of RFC 4291) |
| `Subnets.dfy` | route validity in the browser and in the helper |
| `AppPac.dfy`, `AppPacText.dfy` | the app-facing PAC of the helper, and its own parser of literals |
| `HelperPolicy.dfy` | which addresses the helper dials, and through what |
| `DnsNames.dfy` | DNS name, suffix and domain sanitizers |
| `PacScript.dfy` | policies, Chrome's PAC program with its evaluator, Firefox's interpreter |
| `Destinations.dfy` | where both browsers send a host, stated on the policy and the host alone |
| `ChromeFlush.dfy` | Chrome's asynchronous settings update |
| `ChromeRequests.dfy`, `ChromeProgress.dfy` | from the newest request to what Chrome does with a host; when an update succeeds, writes and fails |
| `RoutingProtection.dfy`, `RoutingGuarantees.dfy`, `RoutingManager.dfy` | protected snapshots per account, what they guarantee, and the object |
| `RoutingRecords.dfy`, `RoutingChoices.dfy` | what a status teaches and a policy carries, from there to the browser; the user's choices, and what is read back |
| `HostSession.dfy`, `HostTransitions.dfy` | the helper's session protocol; what a transition ends, and that none gets stuck |
| `FlatpakActivation.dfy` | the Flatpak install transaction |
| `ExternalProxy.dfy` | the app proxy's ownership, and its tracking listener |
| `IntentQueue.dfy`, `IntentPersisted.dfy` | the connection intent and its write chain; the copy that survives an update |
| `SplitDns.dfy` | CNAME chasing |
| `Taildrop.dfy` | chunked file transfers |

## What the proofs found

Properties that are false as first stated, with the exact condition or a witness:

- `MappedMemberIsNotSafe`, `MemberSafeIff`: an accepted IPv6 route can contain an IPv4-mapped address that the helper refuses; a member is safe exactly when it is not mapped or the address it maps is in no forbidden range.
- `AgreeOnlyIfStrict`, `LooseHost`: Firefox's `parseInt` reads `1.2.3.4a` as an address and the PAC script does not; the browsers agree on a host under all policies if and only if it is not of that kind.
- `AppliedUnlessFailedAndCleared`, `AppliedWithoutClear`: in Firefox a policy that failed and was cleared since is not applied again, and everything goes on direct; in every other case `apply` does what it is asked. No code of the program calls this `clear` today, and without it `apply` always does what it is asked.
- `ScriptAgreesIff`, `ScriptReadsMore`: the app PAC reads some literals that the strict parsers refuse, such as `1.1.1.1::`. It disagrees with them exactly on literals that are well formed up to leading zeros and to a quad before `::`, and have a dot outside one canonical quad at the end; `ScriptReadsIff` says which texts it reads.
- `WarmupOutlivesRelease`, `WarmupOutlivesError`, `WarmStaysIff`: a settled Chrome manager without a failure report may hold a warm-up PAC instead of what was asked, after a release or an error during the warm-up; it does exactly when the last event finds the warm-up written and its key applied before, or latched as failed with the report replaced. `SettledRoutes` shows that no host but the probe then reaches any port other than the closed one.
- `ActiveIsReadyIff`, `ActiveWithoutSession`: Chrome's manager can report active routing without authentication; it does exactly when the session changed while the verified program was being installed, and `AppliedIsReady` shows that nothing else leads there on a helper port other than the closed one.
- `WatcherMayInterpose`: the session lock does not exclude watchers, so the cached map can be replaced between the last check of a dial and its connection; `ConnectsInOwnSession` shows that it is the checked map if and only if no watcher has stored since, and that generation and client cannot change.
- `AppProxiedIff`: a literal that the app PAC sends to the proxy is refused by the helper only if it may not be reached at all, or is in the tailnet's ranges without being a tailnet address.
- `RotationRevokes`: rotating the app proxy's password revokes it on a live listener if and only if the first save works.
- `SecondCloseIsEarly`, `SecondCloseIff`: only the first `Close` of a tracking listener waits for the connections; after a second one they are closed exactly if their users have closed those that the first has still to close.
- `ResolverCanOvertake`, `ClearCanBeOvertaken`, `ClearStandsIff`: a clear can be lost. A startup resolution in flight across it restores what it had read, and a fallback read in flight across a clear and a disconnect makes the clear skip; the cleared intent stays cleared if and only if neither has happened since.
- `DrainedPersists`, `ClearPersists`: the same holds of the copy kept across extension updates: once the chain has drained it is what the last deciding event means, and only a clear that was overtaken can leave a value behind, as in the run of `ResolverCanOvertake`.
- `DownCanFollowResolver`, `DownCanFollowClear`, `OneCorrectiveDown`: either can then send a corrective `down` against the clear; it enforces a decision or a guess to stay down if and only if the newest decision is not a clear. `DownAgainstClearNeeds` shows what must have happened since the clear.
- `LateEventsAgree`, `LateUpdateKeepsPreference`: a late update on a persisted stay-down intent is the one case in which the startup guess depends on timing.
- `DomainOnceIsNotFixed`, `DomainFixedIff`: `sanitizeDomain` is not idempotent; one application is a fixed point exactly when the host in the input neither starts nor ends with two dots, and a second application always is. `SuffixFixedPoint` is the same for suffixes.
- `RejectedSnapshotBlocks`: a stored value that cannot be read, or whose snapshot is outside the validator's limits, blocks everything until a release.

## Model

| member | source | states |
|---|---|---|
| `Prefixes.PrefixMatches` | packages/shared/src/background/ipv6-subnets.ts:53-59 | the word-wise loop is equality of the top `bits` bits of the 128-bit values, for every length 0 to 128 |
| `Prefixes.PacPrefixMatches` | host/proxy_pac.go:167-173 | the app PAC's loop decides the same relation for 8-bit and 16-bit words |
| `Prefixes.MaskNetwork` | packages/shared/src/background/ipv6-subnets.ts:98-102 | masking in place gives each word its kept bits and clears the others |
| `Prefixes.MaskingKeepsMembers` | packages/shared/src/background/ipv6-subnets.ts:97-103 | an address matches the masked network iff it matches the network as written |
| `Prefixes.OverlapAtShorter` | packages/shared/src/background/ipv6-subnets.ts:96 | two prefixes share an address iff they match at the shorter length |
| `Prefixes.SamePrefixShorter` | packages/shared/src/background/ipv6-subnets.ts:96 | addresses that match at a length match at every shorter one |
| `Prefixes.WordStep` | packages/shared/src/background/ipv6-subnets.ts:54-57 | one iteration settles or continues the comparison of the top bits |
| `Ipv6Text.Parse` | packages/shared/src/background/ipv6-subnets.ts:10-51 | every accepted text yields exactly eight words below 65536, and contains a colon |
| `Ipv6Text.ParseAddress` | packages/shared/src/background/ipv6-subnets.ts:10-51 | the parser's loops compute `Parse` on every string, accepted or not |
| `Ipv6Text.RewriteDotted` | packages/shared/src/background/ipv6-subnets.ts:19-32 | the dotted tail becomes two hexadecimal groups, or the text is refused |
| `Ipv6Text.ReadWords` | packages/shared/src/background/ipv6-subnets.ts:38-50 | groups and the zero run become words, or the counts and groups are refused |
| `Ipv6Text.ParseFull` | packages/shared/src/background/ipv6-subnets.ts:34-51 | eight spelled groups parse to the words they spell |
| `Ipv6Text.ParseCompressed` | packages/shared/src/background/ipv6-subnets.ts:34-51 | with one zero run written `::`, the same words come back |
| `Ipv6Text.ParseFullDotted` | packages/shared/src/background/ipv6-subnets.ts:19-51 | with the last two words in dotted decimal, the same words come back |
| `Ipv6Text.ParseCompressedDotted` | packages/shared/src/background/ipv6-subnets.ts:19-51 | compressed and dotted together, the same words come back |
| `Subnets.IpToNum` | packages/shared/src/background/proxy-utils.ts:9-19 | four octets of at most 255 each, or nothing |
| `Subnets.ParseCidr` | packages/shared/src/background/proxy-utils.ts:38-60 | four octets and a length of at most 32, or nothing |
| `Subnets.AndMaskEqual` | packages/shared/src/background/proxy-utils.ts:79-83 | equality under a mask is equality of the masked top bits |
| `Subnets.MatchHost` | packages/shared/src/background/ipv6-subnets.ts:61-71 | a host matches iff it is an unmapped address inside one of the subnets |
| `Subnets.FindForbidden` | packages/shared/src/background/ipv6-subnets.ts:90-96 | the loop finds an overlap with a forbidden range iff there is one |
| `Subnets.ReadIpv6Cidr` | packages/shared/src/background/ipv6-subnets.ts:81-104 | the route reader accepts and masks exactly the strict, unmapped, permitted routes |
| `Subnets.BrowserAgreesWithHelper` | packages/shared/src/background/proxy-utils.ts:68-84 | the browser accepts a route text iff it reads as a strict prefix that the helper's `safeProxyRoute` accepts; which routes those are, by numbers, is `SafeRouteIff` |
| `Subnets.SafeRouteV4` | host/proxy_policy.go:45-55 | the helper's rule for IPv4 routes is the browser's |
| `Subnets.SafeRouteV6` | host/proxy_policy.go:45-55 | the helper's rule for IPv6 routes is the browser's |
| `Subnets.MembersAreSafe` | host/proxy_policy.go:32-55 | every member of an accepted route that is not IPv4-mapped passes `safeProxyIP` |
| `Subnets.MappedMemberIsNotSafe` | host/proxy_policy.go:36-41 | an accepted route with an IPv4-mapped member that `safeProxyIP` refuses |
| `Subnets.MemberSafeIff` | host/proxy_policy.go:32-55 | a member of an accepted route is safe iff it is not IPv4-mapped or the address it maps is in no forbidden IPv4 range |
| `Subnets.ForbiddenIff` | host/proxy_policy.go:24-30 | an address is in none of the forbidden ranges iff it may be reached by its numbers: an IPv4 address with first octet not 0, not 127 and below 224, and not 169.254; an IPv6 address that is neither `::` nor `::1`, with first word outside fe80 to febf and below ff00 |
| `Subnets.SafeIpIff` | host/proxy_policy.go:32-43 | `safeProxyIP` accepts an address iff it may be reached by those numbers, an IPv4-mapped one by those of the IPv4 address it maps |
| `Subnets.OverlapShared` | host/proxy_policy.go:49-53 | two prefixes overlap iff some address is in both |
| `Subnets.SafeRouteIff` | host/proxy_policy.go:45-55 | a route is accepted iff its length is not 0, it is not IPv4-mapped, and every address in it may be reached by those numbers |
| `Subnets.SupportedIff` | packages/shared/src/background/proxy-utils.ts:62-84 | the same for the browser, from the text of the route |
| `Subnets.Unmap` | host/proxy_policy.go:36 | the result is valid and never IPv4-mapped |
| `AppPac.FindApprovedSubnet` | host/proxy_policy.go:59-73 | the nested loops find an approved route to the address iff one exists |
| `AppPac.NodeRoutes` | host/proxy_pac.go:68-82 | a node adds exactly its approved routes, and only when routes are accepted and it is not this node |
| `AppPac.Networks` | host/proxy_pac.go:62-86 | the listed networks are exactly the tailnet ranges and the approved routes of other nodes |
| `AppPac.MatchNetwork` | host/proxy_pac.go:166-173 | the script's bit loop decides membership of a parsed literal in a network |
| `AppPac.FindProxy` | host/proxy_pac.go:164-175 | a parsed literal is proxied iff some listed network contains it |
| `AppPac.AppPacDecision` | host/proxy_pac.go:62-115 | for every map and preferences a parsed literal is proxied iff it is in a tailnet range or an approved route |
| `HelperPolicy.SelectedExitRoutesIp` | host/proxy_policy.go:75-90 | the loops find a default route of the selected exit node for the address iff there is one |
| `HelperPolicy.ProxyIpAllowed` | host/proxy_policy.go:92-114 | the branches and loops compute what allows an address: the tailnet, an approved subnet, the local network or the exit node |
| `HelperPolicy.GroundIff` | host/proxy_policy.go:92-114 | for every map, preferences, address and local network: exactly when each of the four allows it, by numbers and by what the control plane says of the peers |
| `HelperPolicy.ApprovedByNumbers` | host/proxy_policy.go:59-73 | a subnet is approved iff a peer is its primary router, the control plane lists it for that peer, and it is no default route, not IPv4-mapped and free of addresses that may not be reached |
| `HelperPolicy.TailnetByNumbers` | host/proxy_pac.go:62 | the two tailnet ranges are 100.64 to 100.127 and fd7a:115c:a1e0 |
| `HelperPolicy.ChooseTargets` | host/proxy_policy.go:257-276 | every answer is checked before any is dialled: targets are returned iff none is denied and one is of the network asked for |
| `HelperPolicy.TargetsAreAllowed` | host/proxy_policy.go:257-276 | every target is one of the answers, may be reached, and is dialled outside the tailnet only as a private address of the local network while an exit node is selected and local access is on |
| `HelperPolicy.AuthorizedIsProxied` | host/proxy_policy.go:92-102 | every literal that the helper allows as a tailnet address or through an approved route is proxied by the app PAC |
| `HelperPolicy.AppProxiedIff` | host/proxy_pac.go:50-115 | the app PAC's decision by numbers, and the only way in which the helper refuses what it proxies |
| `HelperPolicy.BrowserRouteIsDialled` | host/proxy_policy.go:92-102 | every address of a route that the browser supports and a peer is authorized for is dialled through the tailnet, never over the local network |
| `AppPacText.FindProxyForHost` | host/proxy_pac.go:159-176 | from the raw host: a literal in any form the script reads is proxied iff its address is in a tailnet range or an approved route, with every network parsed from its text |
| `AppPacText.TailchromeAddress` | host/proxy_pac.go:120-158 | the script's parser, by its loops, computes the reading of the model |
| `AppPacText.ReadHalf` | host/proxy_pac.go:130-144 | the loop over the parts of one half reads all of them or nothing |
| `AppPacText.ScriptAgreesIff` | host/proxy_pac.go:120-158 | the script reads what the strict parsers read whenever they read something, and disagrees with them iff the text is a literal up to leading zeros and to where a quad stands, with a dot outside one canonical quad at the end |
| `AppPacText.ScriptReadsIff` | host/proxy_pac.go:120-158 | the texts that the script reads, by their form |
| `AppPacText.FindPrinted` | host/proxy_pac.go:164-175 | the loop over the printed networks finds one that contains the address iff there is one |
| `AppPacText.WordsAgreeIff` | host/proxy_pac.go:145-153 | with a colon: equal to the browser's parser on texts with strict dots, which refuses all others |
| `AppPacText.ScriptReadsMore` | host/proxy_pac.go:134-137 | a quad before `::` is read by the script alone |
| `DnsNames.SanitizeSuffix` | packages/shared/src/background/proxy-utils.ts:90-94 | the result is empty or consists of suffix characters |
| `DnsNames.SuffixFixedPoint` | packages/shared/src/background/proxy-utils.ts:90-94 | sanitizing again changes something iff the suffix consists of suffix characters and ends in two dots |
| `DnsNames.SuffixIff` | packages/shared/src/background/proxy-utils.ts:90-94 | exactly which texts give a suffix, and as what |
| `DnsNames.NameFixedPoint` | packages/shared/src/background/proxy-utils.ts:97-105 | an accepted DNS name is accepted again as itself |
| `DnsNames.NameIff` | packages/shared/src/background/proxy-utils.ts:97-105 | exactly which texts give a name: its own, in any case, with or without one dot at the end |
| `DnsNames.SanitizeRoutes` | packages/shared/src/background/proxy-utils.ts:107-112 | distinct, valid names |
| `DnsNames.CollectShortNames` | packages/shared/src/background/proxy-utils.ts:115-128 | distinct, valid names without dots |
| `DnsNames.RoutesIff` | packages/shared/src/background/proxy-utils.ts:107-112 | a name is kept iff some entry of the list gives it |
| `DnsNames.CollectIff` | packages/shared/src/background/proxy-utils.ts:115-128 | a short name is collected iff it is one label and the sanitized name of some node is that label under the suffix |
| `DnsNames.SortedOnce` | packages/shared/src/background/proxy-utils.ts:107-128 | sorting gives ascending order, and one list for each set of names |
| `DnsNames.ListsAreCanonical` | packages/shared/src/background/proxy-utils.ts:107-128 | DNS routes and nodes in any order and with repetitions give the same lists, so that policies can be compared as text |
| `DnsNames.SanitizeDomain` | packages/shared/src/background/proxy-utils.ts:158-178 | an accepted domain consists of domain characters, without two dots in a row |
| `DnsNames.DomainTwiceFixed` | packages/shared/src/background/proxy-utils.ts:158-178 | the second application of the domain sanitizer reaches a fixed point |
| `DnsNames.DomainFixedIff` | packages/shared/src/background/proxy-utils.ts:158-178 | one application is a fixed point iff the host in the input, before dots are stripped, neither starts nor ends with two dots |
| `DnsNames.DomainOnceIsNotFixed` | packages/shared/src/background/proxy-utils.ts:172-177 | a domain that changes under its second sanitizing |
| `DnsNames.DomainOfUrl` | packages/shared/src/background/proxy-utils.ts:158-178 | from a domain or URL with scheme, port and path the host is kept, without one dot at either end, iff it is a domain |
| `DnsNames.CollectDomains` | packages/shared/src/background/domain-split.ts:23-33 | the loop keeps the first occurrence of each sanitized domain, in order |
| `DnsNames.CleanIff` | packages/shared/src/background/domain-split.ts:23-33 | a domain is kept iff some entry sanitizes to it |
| `DnsNames.NormalizeIff` | packages/shared/src/background/domain-split.ts:16-35 | a split setting keeps its mode and the domains its entries sanitize to |
| `DnsNames.CleanFixed` | packages/shared/src/background/domain-split.ts:23-33 | a list is unchanged iff it has no duplicates and every domain is a fixed point |
| `DnsNames.NormalizeTwiceFixed` | packages/shared/src/background/domain-split.ts:16-35 | normalizing a normalized domain split once more reaches a fixed point |
| `PacScript.WarmupBlocks` | packages/extension/src/background/chrome-proxy-manager.ts:127-148 | every host but the probe that the active PAC sends to the helper goes to the closed port under the warm-up PAC |
| `FirefoxProxy.TestsAgree` | packages/extension/src/background/firefox-proxy-manager.ts:189-214 | the script's conditions together hold iff Firefox's tests do |
| `FirefoxProxy.AgreeOnlyIfStrict` | packages/shared/src/background/proxy-utils.ts:9-19 | for every host text: the browsers decide alike under all policies and sessions iff `parseInt` does not take the host for an address it is not |
| `FirefoxProxy.BrowsersDiffer` | packages/extension/src/background/firefox-proxy-manager.ts:206-212 | on every other host a policy that blocks all IPv4 addresses separates them: Chrome goes direct, Firefox is blocked |
| `FirefoxProxy.LooseHost` | packages/shared/src/background/proxy-utils.ts:13-17 | 1.2.3.4a is such a host |
| `FirefoxProxy.SameDecision` | packages/extension/src/background/chrome-proxy-manager.ts:275-342 | for every policy, session and strict host the PAC and Firefox make the same decision, down to the port; which decision that is, on the policy and the host, are `ChromeDecides` and `FirefoxDecides` |
| `FirefoxProxy.LostSessionBlocks` | packages/extension/src/background/firefox-proxy-manager.ts:167-172 | credentials lost after `apply` make Firefox behave as Chrome's blocked PAC |
| `Destinations.ChromeDecides` | packages/extension/src/background/chrome-proxy-manager.ts:275-342 | for every policy, session and raw host: direct in direct mode; else what the policy covers, and with an exit node or everything blocked what is not listed in bypass mode and what is listed in only mode, goes to the helper's port with credentials and to port 1 without; everything else goes direct |
| `Destinations.FirefoxDecides` | packages/extension/src/background/firefox-proxy-manager.ts:160-228 | the same for the listener of Firefox, with the session at the time of the request |
| `Destinations.WarmupDecides` | packages/extension/src/background/chrome-proxy-manager.ts:127-148 | with the warm-up PAC the probe alone reaches the helper, and everything that the policy covers or sends through its exit node goes to the closed port |
| `Destinations.HostForms` | packages/extension/src/background/firefox-proxy-manager.ts:179-184 | upper case, a dot at the end and brackets make no difference to a host |
| `Destinations.QuadIsLiteral` | packages/shared/src/background/proxy-utils.ts:9-19 | an IPv4 address in dotted decimal is read as that address |
| `Destinations.WordsAreLiteral` | packages/shared/src/background/ipv6-subnets.ts:10-51 | a text that parses as an IPv6 address that is not IPv4-mapped is read as that address |
| `Destinations.RouteIsProtected` | packages/extension/src/background/chrome-proxy-manager.ts:275-342 | in no mode but direct does an address of a recorded route that the helper accepts go direct, in either browser |
| `FirefoxProxy.AppliedUnlessFailedAndCleared` | packages/extension/src/background/firefox-proxy-manager.ts:97-125 | over every run of sessions, policies, errors and clears, `apply` leaves the fields of its policy, except exactly when that policy failed and was cleared since |
| `FirefoxProxy.AppliedWithoutClear` | packages/extension/src/background/firefox-proxy-manager.ts:97-125 | over every run without a clear, which is every run of the program today, `apply` leaves the fields of its policy |
| `FirefoxProxy.ClearedFailureStaysDirect` | packages/extension/src/background/firefox-proxy-manager.ts:103-107 | a run with a clear in which a blocked policy is not applied again and everything goes direct |
| `FirefoxProxy.FirefoxProxyManager.ApplyPolicy` | packages/extension/src/background/firefox-proxy-manager.ts:97-125 | the step of `apply`, with its early return for a failed policy |
| `FirefoxProxy.FirefoxProxyManager.Error` | packages/extension/src/background/firefox-proxy-manager.ts:78-86 | an error marks the policy last asked for as failed |
| `FirefoxProxy.FirefoxProxyManager.ClearRouting` | packages/extension/src/background/firefox-proxy-manager.ts:155-158 | everything goes direct afterwards |
| `FirefoxProxy.FirefoxProxyManager.constructor` | packages/extension/src/background/firefox-proxy-manager.ts:63-73 | before the first `apply` every request goes to the closed port |
| `FirefoxProxy.FirefoxProxyManager.MatchSplitDomain` | packages/extension/src/background/firefox-proxy-manager.ts:230-235 | found iff the host is a listed domain or below one |
| `FirefoxProxy.FirefoxProxyManager.ResolveProxy` | packages/extension/src/background/firefox-proxy-manager.ts:160-228 | the listener's branches compute the decision the theorems are about |
| `ChromeFlush.StepKeeps` | packages/extension/src/background/chrome-proxy-manager.ts:168-273 | every request, callback, change event, error and probe outcome keeps the invariant |
| `ChromeFlush.AtMostOneUpdate` | packages/extension/src/background/chrome-proxy-manager.ts:168-193 | in every run at most one browser callback is outstanding, exactly while `inFlight` |
| `ChromeFlush.SettledIsHonest` | packages/extension/src/background/chrome-proxy-manager.ts:168-273 | whenever nothing is in flight, the browser holds the requested configuration or a warm-up PAC, or the latest report is a failure |
| `ChromeFlush.SupersededIsReported` | packages/extension/src/background/chrome-proxy-manager.ts:184-198 | a superseded helper-port PAC never stays installed silently |
| `ChromeFlush.SettledRoutes` | packages/extension/src/background/chrome-proxy-manager.ts:127-148 | settled without a failure, the browser routes every host as the manager wants, or no host but the probe reaches a port other than the closed one; that the manager wants what was asked last is `NewestIsWanted` |
| `ChromeFlush.WarmStaysIff` | packages/extension/src/background/chrome-proxy-manager.ts:168-273 | over every run, exactly which last events leave a warm-up PAC installed without a failure report, by the state before them |
| `ChromeFlush.HoldsUnlessWarm` | packages/extension/src/background/chrome-proxy-manager.ts:168-273 | settled without a failure, the browser holds what was asked except in exactly those cases |
| `ChromeFlush.WarmupOutlivesRelease` | packages/extension/src/background/chrome-proxy-manager.ts:168-183 | a run that settles with a warm-up PAC after a release during the probe |
| `ChromeFlush.WarmupOutlivesError` | packages/extension/src/background/chrome-proxy-manager.ts:242-246 | a run that settles with a warm-up PAC after an error whose report was replaced |
| `ChromeFlush.ActiveIsReadyIff` | packages/extension/src/background/chrome-proxy-manager.ts:258-266 | over every run a verified routing PAC is reported active, and authentication is then ready iff the session has not changed since its update began |
| `ChromeFlush.AppliedIsReady` | packages/extension/src/background/chrome-proxy-manager.ts:175-266 | over every run in which no session changes while a routing PAC is being installed, active routing recorded as applied, on a port other than the closed one, is authenticated |
| `ChromeFlush.ActiveWithoutSession` | packages/extension/src/background/chrome-proxy-manager.ts:258-266 | a run that reports active routing after the session was lost |
| `ChromeFlush.ChromeProxyManager.ApplyPolicy` | packages/extension/src/background/chrome-proxy-manager.ts:107-153 | `apply` is the request step; what that step makes the browser do, by the policy and the host, is `WantWants` |
| `ChromeFlush.ChromeProxyManager.ClearSettings` | packages/extension/src/background/chrome-proxy-manager.ts:155-162 | `clear` is the request step |
| `ChromeFlush.ChromeProxyManager.FlushNow` | packages/extension/src/background/chrome-proxy-manager.ts:168-194 | `flush` starts one update, reports, or does nothing |
| `ChromeFlush.ChromeProxyManager.SetProxySession` | packages/extension/src/background/chrome-proxy-manager.ts:33-39 | a changed session invalidates what was applied |
| `ChromeFlush.ChromeProxyManager.SettingsChanged` | packages/extension/src/background/chrome-proxy-manager.ts:55-77 | the change listener's three branches |
| `ChromeFlush.ChromeProxyManager.ProxyErrorSeen` | packages/extension/src/background/chrome-proxy-manager.ts:78-100 | which proxy errors latch |
| `ChromeFlush.ChromeProxyManager.Read` | packages/extension/src/background/chrome-proxy-manager.ts:194-214 | the first read: superseded, failed, conflicted or write |
| `ChromeFlush.ChromeProxyManager.Written` | packages/extension/src/background/chrome-proxy-manager.ts:215-219 | the write's callback |
| `ChromeFlush.ChromeProxyManager.Verified` | packages/extension/src/background/chrome-proxy-manager.ts:220-266 | verification: again after a change, failed, conflicted, probe or confirmed |
| `ChromeFlush.ChromeProxyManager.Probed` | packages/extension/src/background/chrome-proxy-manager.ts:244-255 | the probe's two outcomes |
| `ChromeFlush.ChromeProxyManager.PrepareAuth` | packages/extension/src/background/chrome-proxy-auth.ts:42-47 | the probe starts, is already ready, or is refused without a session |
| `ChromeRequests.WantWants` | packages/extension/src/background/chrome-proxy-manager.ts:107-162 | whatever the state: after a request the wanted configuration sends every raw host where the policy and the session say, direct for a release; the health is inactive for a release, active with credentials and else blocked; and active routing comes with the warm-up of the same policy |
| `ChromeRequests.NewestIsWanted` | packages/extension/src/background/chrome-proxy-manager.ts:107-273 | over every run, with requests made by the health listener inside callbacks: the manager wants what the newest request asks under the session it was made in |
| `ChromeRequests.SettledFollowsNewest` | packages/extension/src/background/chrome-proxy-manager.ts:107-273 | over every run, settled without a failure, the browser sends every host where the newest request asks, or holds a warm-up PAC |
| `ChromeRequests.WarmupProtects` | packages/extension/src/background/chrome-proxy-manager.ts:127-148 | over every run a warm-up PAC in the browser is that of a request for active routing made in the run, and sends all that this request covers to the closed port |
| `ChromeProgress.RequestSucceeds` | packages/extension/src/background/chrome-proxy-manager.ts:168-273 | from every reachable point without an update: a new request that was not given up is installed, verified and reported, after answers without failures, and every host goes where it asks |
| `ChromeProgress.WritesIff` | packages/extension/src/background/chrome-proxy-manager.ts:194-219 | over every run the browser is written to iff the configuration is still wanted, the read worked and nobody else controls the setting, unless routing is released |
| `ChromeProgress.ConfirmsOnlyHeld` | packages/extension/src/background/chrome-proxy-manager.ts:220-241 | over every run a configuration is confirmed only if the browser holds it under control of this extension, and is read again after a change |
| `ChromeProgress.NewSessionIsFresh` | packages/extension/src/background/chrome-proxy-manager.ts:33-39 | after a changed session no configuration counts as given up or applied |
| `ChromeProgress.OtherRequestIsFresh` | packages/extension/src/background/chrome-proxy-manager.ts:107-162 | a configuration stays given up exactly while it is asked for again |
| `RoutingGuarantees.DirectNeedsStandingRelease` | packages/shared/src/background/routing-protection.ts:338-383 | over every run, once an account is remembered, `direct` appears iff nothing blocks and a release, a login start or a confirmed disconnect stands |
| `RoutingGuarantees.ReleasedStands` | packages/shared/src/background/routing-protection.ts:219-259 | a state is released, by a login or otherwise, iff a cause of that kind stands |
| `RoutingGuarantees.PendingIffRequested` | packages/shared/src/background/routing-protection.ts:279-292 | a disconnect is pending iff one was requested and no release, login, switch, answer or status of another account has dropped it |
| `RoutingGuarantees.SnapshotKept` | packages/shared/src/background/routing-protection.ts:206-336 | a remembered account is never forgotten |
| `RoutingGuarantees.ActiveNeedsLiveAccount` | packages/shared/src/background/routing-protection.ts:342-372 | over every run `active` appears iff nothing blocks, no release stands, the live account is the remembered one and running, and any selected exit is live and online |
| `RoutingGuarantees.SwitchBlocksUntilNamed` | packages/shared/src/background/routing-protection.ts:228-245 | after a switch everything is blocked until a status names another account than the source, another switch starts or a release occurs |
| `RoutingGuarantees.SubnetsNeverShrink` | packages/shared/src/background/routing-protection.ts:298-319 | every account's recorded subnets only grow over any run |
| `RoutingGuarantees.SubnetsSurviveRestart` | packages/shared/src/background/routing-protection.ts:385-396 | and they survive a restart with at most 32 accounts within the limits |
| `RoutingGuarantees.ExitClearedOnlyExplicitly` | packages/shared/src/background/routing-protection.ts:298-305 | an account's exit becomes none only by a status of that account reporting none while a clear made in it, in this run or before, has been pending ever since |
| `RoutingGuarantees.ClearWasMadeThere` | packages/shared/src/background/routing-protection.ts:279-285 | a pending clear was made while its account was the remembered one |
| `RoutingGuarantees.RestartKeepsPolicy` | packages/shared/src/background/routing-protection.ts:164-204 | after any run, restoring the last save gives the same policy on every live state |
| `RoutingGuarantees.RestoredPolicy` | packages/shared/src/background/routing-protection.ts:40-107 | the same for every uncorrupted clean state within the limits |
| `RoutingGuarantees.RejectedSnapshotBlocks` | packages/shared/src/background/routing-protection.ts:192-201 | a failed read, or a snapshot the validator refuses, blocks everything over any run without a release |
| `RoutingGuarantees.UncertainBlocks` | packages/shared/src/background/routing-protection.ts:338-342 | a corrupted state blocks everything until a release, a login or a confirmed disconnect |
| `RoutingGuarantees.RestartKeepsRecords` | packages/shared/src/background/routing-protection.ts:193-198 | every account's record comes back unchanged |
| `RoutingGuarantees.DigestIsClean` | packages/shared/src/background/routing-protection.ts:300-334 | what a well-formed status records passes the validator |
| `RoutingGuarantees.RunIsClean` | packages/shared/src/background/routing-protection.ts:300-334 | so does everything recorded over any run |
| `RoutingGuarantees.StepChanges` | packages/shared/src/background/routing-protection.ts:206-396 | a step files the remembered account and touches no other record |
| `RoutingGuarantees.StepKeepsRecorded` | packages/shared/src/background/routing-protection.ts:206-396 | the remembered account stays filed and every account filed once |
| `RoutingManager.Protection.SelectExitNode` | packages/shared/src/background/routing-protection.ts:206-214 | the step of choosing or clearing an exit |
| `RoutingManager.Protection.RequestDisconnect` | packages/shared/src/background/routing-protection.ts:215-218 | the step of a requested disconnect |
| `RoutingManager.Protection.Reconnect` | packages/shared/src/background/routing-protection.ts:219-221 | the step of a reconnect |
| `RoutingManager.Protection.StartLogin` | packages/shared/src/background/routing-protection.ts:222-224 | the step of a login start |
| `RoutingManager.Protection.SwitchTo` | packages/shared/src/background/routing-protection.ts:228-245 | the step of an account switch |
| `RoutingManager.Protection.Release` | packages/shared/src/background/routing-protection.ts:246-259 | the step of a release |
| `RoutingManager.Protection.Confirm` | packages/shared/src/background/routing-protection.ts:261-336 | the step of a status; what the status teaches is `DigestReads`, and what it records is `ConfirmLearns` |
| `RoutingManager.Protection.DecorateState` | packages/shared/src/background/routing-protection.ts:338-383 | refreshes the remembered domain split and returns the policy of the resulting state; what that policy carries is `PolicyCarriesRecord` |
| `RoutingManager.Protection.WriteSaved` | packages/shared/src/background/routing-protection.ts:385-396 | files the remembered account and saves the last 32 |
| `RoutingManager.Protection.RestoreFrom` | packages/shared/src/background/routing-protection.ts:164-204 | the state after the read returns: restored, corrupted by a failed read, or left alone by a newer choice |
| `RoutingManager.MapSet` | packages/shared/src/background/routing-protection.ts:386 | an account keeps its place when it is set again |
| `RoutingProtection.PutFinds` | packages/shared/src/background/routing-protection.ts:386 | setting one account changes what is found for that account only |
| `RoutingRecords.DigestReads` | packages/shared/src/background/routing-protection.ts:300-334 | a status teaches every route that a subnet router among its peers offers and the helper accepts, every short name of a node, the authoritative DNS routes or else the legacy ones, and nothing else |
| `RoutingRecords.DigestNames` | packages/shared/src/background/routing-protection.ts:261-299 | the account and the exit node that a status names |
| `RoutingRecords.ConfirmLearns` | packages/shared/src/background/routing-protection.ts:261-336 | exactly what a status does to the remembered account: when it records, and then every route of the status and of the record, the short names of a complete status or else the union, suffix and DNS routes of the status when it has them, and the pending, reported or recorded exit node in this order |
| `RoutingRecords.PolicyCarriesRecord` | packages/shared/src/background/routing-protection.ts:338-383 | over every run with a remembered account: everything is blocked while something blocks, direct while a release stands, and else the policy carries the record field by field, with the live domain split |
| `RoutingRecords.LivePolicyReads` | packages/shared/src/background/routing-protection.ts:120-152 | before any account is remembered the policy carries the usable routes, short names and DNS routes of the live state, and nothing else |
| `RoutingRecords.LivePolicyMode` | packages/shared/src/background/routing-protection.ts:120-145 | when that policy is direct, active or blocked, and which exit node it has |
| `RoutingRecords.BlockAllBlocks` | packages/shared/src/background/routing-protection.ts:338-345 | while everything is blocked, every host goes to the closed port in both browsers |
| `RoutingRecords.LearnedStays` | packages/shared/src/background/routing-protection.ts:298-319 | over every run a route that a status taught stays in the record of its account |
| `RoutingRecords.LearnedRouteIsProtected` | packages/shared/src/background/routing-protection.ts:261-383 | from status to browser, over every run without a standing release: an address of a route that a status taught is never sent direct by either browser while its account is the remembered one |
| `RoutingChoices.ChoiceStands` | packages/shared/src/background/routing-protection.ts:206-214 | over every run a chosen exit node is that of the account from then on, whatever statuses still report, and routing is active only once it is online |
| `RoutingChoices.ChoiceAnswered` | packages/shared/src/background/routing-protection.ts:294-312 | a choice stops waiting exactly when a recorded status reports it, and a cleared exit node when one reports none |
| `RoutingChoices.SwitchLeaves` | packages/shared/src/background/routing-protection.ts:228-245 | the account a switch leaves: the live one, none for a profile known to be empty, and else the remembered one |
| `RoutingChoices.SwitchEndsIff` | packages/shared/src/background/routing-protection.ts:261-292 | a status ends a switch iff it names another account than the one left, or answers a disconnect |
| `RoutingChoices.BeforeAnyAccount` | packages/shared/src/background/routing-protection.ts:338-383 | without a remembered account everything is blocked iff the helper runs without an identity |
| `RoutingChoices.SplitIsRecorded` | packages/shared/src/background/routing-protection.ts:346-361 | showing a policy records the live domain split and changes nothing else of the account |
| `RoutingChoices.SavesLast` | packages/shared/src/background/routing-protection.ts:385-396 | what is saved: the flags, and the 32 accounts filed last |
| `RoutingChoices.ReadBackIff` | packages/shared/src/background/routing-protection.ts:40-107 | exactly which saved snapshots are read back, by their texts: the length of the account as JSON, of the exit node and of the lists, IPv6 routes that are supported, IPv4 routes of any strict or loose network, valid names |
| `RoutingChoices.ScopeLengthIs` | packages/shared/src/background/routing-protection.ts:43 | the measured length is that of the JSON text of the account |
| `RoutingChoices.RestoredSwitch` | packages/shared/src/background/routing-protection.ts:164-201 | the flags a restart restores, and which account a restored switch left |
| `RoutingChoices.NewerChoiceWins` | packages/shared/src/background/routing-protection.ts:168-172 | a release or an exit node chosen while the read is pending wins over whatever the read brings |
| `HostSession.StepKeeps` | host/host.go:417-442 | every critical section of every goroutine keeps the protocol's invariant |
| `HostSession.AuthorizedAgainstCurrentMap` | host/proxy_policy.go:184-286 | when an attempt passes its last check the cached map is the one all addresses were checked against, the session is the one read before it, and a watcher of that generation stored it |
| `HostSession.ConnectsInOwnSession` | host/proxy_policy.go:277-302 | at the connection client and generation are still the dial's, and the cached map is the checked one iff no watcher has stored since |
| `HostSession.WatcherMayInterpose` | host/proxy_policy.go:279-284 | for every address a run in which a watcher replaces the map between check and connection |
| `HostSession.AttemptIsReached` | host/proxy_policy.go:184-286 | a run that opens a session, stores a map and authorizes a connection |
| `HostSession.DialSeesOneSession` | host/proxy_policy.go:184-286 | from its session snapshot to its connection a dial sees one client and one generation |
| `HostSession.DialPasses` | host/proxy_policy.go:184-286 | an undisturbed dial to a permitted address is authorized |
| `HostSession.NoRequestDuringTransition` | host/proxy.go:346-406 | between drain and reopening no admitted request exists, and none is admitted from the start of a transition on |
| `HostSession.RequestKeepsIdentity` | host/proxy.go:346-388 | client and generation are constant over each admitted request's lifetime |
| `HostSession.LockedStore` | host/status.go:160-190 | a watcher that touches the cache is of the current session, and what it stores was never stored before |
| `HostTransitions.OldSessionsAreDead` | host/proxy_policy.go:345-386 | in every run, nothing that began before a session changed hands outlives it: no connection attempt, no stored map in force and no admitted request |
| `HostTransitions.OnlyRenewalsChange` | host/proxy_policy.go:355-369 | client and generation change only there, or when a client is published into a session without one and without a map |
| `HostTransitions.TransitionIsNotOvertaken` | host/proxy_policy.go:372-386 | in every run the repeated checks of client and generation hold: a transition publishes its client, and ends with a watcher of the new session |
| `HostTransitions.TransitionCanEnd` | host/proxy.go:393-406 | no deadlock: from every reachable state the transition can be brought to its end by what is already under way, and every new request is then admitted |
| `HostTransitions.AdmittedIff` | host/proxy.go:346-386 | in every run a request is admitted, under the current identity, iff no transition is between its start and its reopening |
| `HostTransitions.StoreIs` | host/status.go:160-190 | in every run a watcher of the current session stores what it fetched, or nothing after a reset, and any other watcher ends and leaves the cache alone |
| `HostTransitions.CheckedIff` | host/proxy_policy.go:257-276 | in every run a dial passes the policy iff it has addresses and the map it read permits all of them |
| `HostSession.Host.BeginWebRequest` | host/proxy.go:346-378 | admission, refused exactly during a transition |
| `HostSession.Host.LeaveWebRequest` | host/proxy.go:378-384 | a finished handler leaves the active set |
| `HostSession.Host.DoneWebRequest` | host/proxy.go:385 | and is then no longer counted |
| `HostSession.Host.StopAdmission` | host/proxy.go:393-399 | a transition closes admission |
| `HostSession.Host.WaitReturns` | host/proxy.go:400 | the drain ends exactly when no request is counted |
| `HostSession.Host.ReopenWeb` | host/proxy.go:401-405 | the end of a transition |
| `HostSession.Host.DetachForInit` | host/host.go:422-431 | client and generation change together |
| `HostSession.Host.ClearCachedStatus` | host/host.go:442 | the map is cleared before a new client is published |
| `HostSession.Host.PublishClient` | host/host.go:522-535 | the client is published only in its own generation |
| `HostSession.Host.BeginProfileChange` | host/proxy_policy.go:355-368 | generation and map change in one critical section, or admission reopens |
| `HostSession.Host.StoreNetMap` | host/status.go:160-190 | a watcher stores exactly while its client and generation are current |
| `HostSession.Host.SessionSnapshot` | host/host.go:1083-1087 | client and generation read together |
| `HostSession.Host.CheckSession` | host/proxy_policy.go:277-286 | the last check of an attempt |
| `FlatpakActivation.Activate` | host/install_flatpak_linux.go:258-285 | under any failures: all installed with originals in their backups, or an error with each original at its target or backup; with no rollback error every target is as before; other paths are untouched; without failures it installs, or undoes everything if a staged file is missing; and a single failing operation, wherever it strikes, never ends in a rollback error |
| `FlatpakActivation.Rollback` | host/install_flatpak_linux.go:287-316 | every backup is restored or kept; without a reported error all are restored and the backups removed; without failures no error is added |
| `FlatpakActivation.RestoreOne` | host/install_flatpak_linux.go:289-305 | one target is restored, or its backup stays |
| `FlatpakActivation.InstallOne` | host/install_flatpak_linux.go:260-282 | one artifact is moved, unmoved with its target as before, or stuck with its original in the backup |
| `FlatpakActivation.RolledBack` | host/install_flatpak_linux.go:287-316 | what a rollback of the first artifacts means for all of them |
| `FlatpakActivation.OneMore` | host/install_flatpak_linux.go:289-305 | undoing one pair keeps what undoing the later ones achieved |
| `FlatpakActivation.OthersStay` | host/install_flatpak_linux.go:260-283 | installing one artifact leaves the others active or waiting |
| `FlatpakActivation.Root.Rename` | host/install_flatpak_linux.go:46 | a failed rename changes nothing |
| `FlatpakActivation.Root.RemoveAll` | host/install_flatpak_linux.go:47 | a failed removal leaves anything below its path and nothing else changed |
| `ExternalProxy.AlwaysSafe` | host/external_proxy.go:90-192 | over any steps with any failing saves and binds, a live listener is enabled, wildcard iff memory allows the LAN, and then the file allows it too |
| `ExternalProxy.StepKeeps` | host/external_proxy.go:90-237 | each step keeps that invariant |
| `ExternalProxy.SuccessIsReal` | host/external_proxy.go:90-237 | over any run a step that reports success did what was asked in memory, on the network and in the file |
| `ExternalProxy.OthersCannotTakeOver` | host/external_proxy.go:106-192 | an enabled proxy stays its owner's over any run until it is disabled, and refuses every other profile |
| `ExternalProxy.RotationRevokes` | host/external_proxy.go:221-237 | a rotation revokes the live password iff its first save works |
| `ExternalProxy.SucceedsIff` | host/external_proxy.go:90-315 | for every state, step and pattern of failures: a step succeeds iff it is not refused and every save and bind it makes works |
| `ExternalProxy.StepLeaves` | host/external_proxy.go:90-237 | which step may change which setting, whatever fails |
| `ExternalProxy.DisablingStops` | host/external_proxy.go:126-137 | disabling stops the listener and clears owner and LAN access even when its save fails |
| `ExternalProxy.PortIsKept` | host/external_proxy.go:277-301 | over any run with any failures a live listener is bound to the port in memory, and a port once chosen stays |
| `ExternalProxy.CreatedIff` | host/external_proxy.go:53-80 | when the proxy is created, and exactly when it then listens |
| `ExternalProxy.Proxy.SetEnabledFor` | host/external_proxy.go:106-137 | the step of enabling or disabling for a profile |
| `ExternalProxy.Proxy.SetEnabled` | host/external_proxy.go:139-164 | the step of enabling or disabling |
| `ExternalProxy.Proxy.SetAllowLAN` | host/external_proxy.go:168-192 | the step of allowing the LAN, saved before it is bound |
| `ExternalProxy.Proxy.AttachTo` | host/external_proxy.go:90-104 | the step of restoring the owner |
| `ExternalProxy.Proxy.RotateCredentials` | host/external_proxy.go:221-237 | the step of rotating the password |
| `ExternalProxy.Proxy.StartLocked` | host/external_proxy.go:277-301 | binding, with the picked port saved first |
| `ExternalProxy.Proxy.SaveLocked` | host/external_proxy.go:303-315 | a failed save leaves the file unchanged |
| `ExternalProxy.Proxy.CloseListener` | host/external_proxy.go:266-275 | closing the listener |
| `TrackingListener.ClosedAfterClose` | host/external_proxy.go:332-383 | in every interleaving, once the first `Close` has returned every connection ever handed out is closed, for good |
| `TrackingListener.SecondCloseIff` | host/external_proxy.go:349-364 | in every interleaving, when a second `Close` returns every connection handed out is closed, and stays so, iff those the first has still to close are |
| `TrackingListener.SecondCloseIsEarly` | host/external_proxy.go:350-353 | a second `Close` can return while a connection is open |
| `TrackingListener.StepKeeps` | host/external_proxy.go:332-383 | open connections handed out are tracked, or still to be closed |
| `TrackingListener.Tracker.RegisterConn` | host/external_proxy.go:337-345 | a connection accepted after the flag is closed and not handed out |
| `TrackingListener.Tracker.Collect` | host/external_proxy.go:349-359 | flag and collection change in one critical section |
| `TrackingListener.Tracker.RemoveConn` | host/external_proxy.go:367-371 | a closed connection is no longer tracked |
| `IntentQueue.DrainedStoresDecision` | packages/shared/src/background/background.ts:1084-1135 | in every interleaving a drained chain has stored the decision recorded last, has stored nothing after a clear iff that was not overtaken, and the guess before any decision |
| `IntentQueue.ClearStandsIff` | packages/shared/src/background/background.ts:1117-1178 | a drained chain has kept the last clear iff since then no resolution has ended and no fallback has acted while a value was stored, being stored or waiting to be |
| `IntentQueue.UndisturbedStoresDecision` | packages/shared/src/background/background.ts:1117-1135 | so without an ended resolution or a disconnect since the last clear the newest decision is stored |
| `IntentQueue.SinceClear` | packages/shared/src/background/background.ts:1110-1121 | while a clear is the newest decision, the latch holds unless the helper has disconnected, and the mirror is set iff a resolution or the fallback set it since |
| `IntentQueue.ResolverCanOvertake` | packages/shared/src/background/background.ts:1150-1178 | a run in which a resolution in flight restores the intent that was cleared |
| `IntentQueue.DownCanFollowResolver` | packages/shared/src/background/background.ts:1259-1267 | the restored intent sends a `down` on the next connection |
| `IntentQueue.ClearCanBeOvertaken` | packages/shared/src/background/background.ts:1259-1280 | a run in which the fallback makes a clear skip |
| `IntentQueue.RecordedStands` | packages/shared/src/background/background.ts:1104-1108 | a recorded decision changes only through a later record or clear |
| `IntentQueue.OneCorrectiveDown` | packages/shared/src/background/background.ts:1259-1289 | a corrective `down` is sent at most once per connection, and enforces a decision or a guess to stay down iff the newest decision is not a clear |
| `IntentQueue.DownSentIff` | packages/shared/src/background/background.ts:1259-1289 | exactly when a `down` is sent, by the state before the event |
| `IntentQueue.RefusedDownIsRetried` | packages/shared/src/background/background.ts:1282-1289 | a corrective `down` that the port refuses is sent by the next status, and an accepted one by none after it |
| `IntentQueue.DownCanFollowClear` | packages/shared/src/background/background.ts:1268-1276 | a run in which one is sent against a clear |
| `IntentQueue.DownAgainstClearNeeds` | packages/shared/src/background/background.ts:1110-1120 | that needs a disconnect since the clear and, unless it is the fallback's own, a resolution or a fallback that has set the mirror since |
| `IntentQueue.RecordedConnectIsLeftUp` | packages/shared/src/background/background.ts:1104-1108 | after a recorded decision to connect none is sent until the next record or clear |
| `IntentQueue.LateEventsAgree` | packages/shared/src/background/background.ts:424-488 | the startup guess ends as if all lifecycle events had been seen before it, except in exactly one case |
| `IntentQueue.LateUpdateKeepsPreference` | packages/shared/src/background/background.ts:465-478 | a run that reaches the exceptional case |
| `IntentQueue.StepKeepsQueue` | packages/shared/src/background/background.ts:1084-1135 | what the waiting tasks will store is the newest decision or the guess that overtook it, after every event |
| `IntentPersisted.DrainedPersists` | packages/shared/src/background/background.ts:424-488 | in every interleaving, once the chain has drained the copy kept across updates is what the last deciding event means: a recorded value, none after a clear or a browser startup, true after a late update that restores the intent, and before any what was stored; only a clear that was overtaken may differ |
| `IntentPersisted.RecordedPersists` | packages/shared/src/background/background.ts:1084-1108 | a recorded decision survives an extension update: the persisted copy is that value, unless a browser startup has come since |
| `IntentPersisted.ClearPersists` | packages/shared/src/background/background.ts:1117-1135 | after a clear that nothing has overtaken no copy is left |
| `IntentQueue.IntentKeeper.RecordDecision` | packages/shared/src/background/background.ts:1104-1108 | the step of a decision |
| `IntentQueue.IntentKeeper.ClearDecision` | packages/shared/src/background/background.ts:1117-1135 | the step of a clear, which closes the corrective window |
| `IntentQueue.IntentKeeper.AdvanceTask` | packages/shared/src/background/background.ts:1085-1101 | one storage call of the chain; the mirror is read when a task begins; what the calls leave in both stores are `DrainedStoresDecision` and `DrainedPersists` |
| `IntentQueue.IntentKeeper.HandleBrowserStartup` | packages/shared/src/background/background.ts:424-449 | a browser startup, late or not |
| `IntentQueue.IntentKeeper.HandleUpdate` | packages/shared/src/background/background.ts:450-488 | an extension update, late or not |
| `IntentQueue.IntentKeeper.FinishFromPrefs` | packages/shared/src/background/background.ts:1159-1178 | the end of a startup resolution |
| `IntentQueue.IntentKeeper.MaybeAutoDisconnect` | packages/shared/src/background/background.ts:1259-1268 | when a status sends the corrective command or starts a read |
| `IntentQueue.IntentKeeper.HandleStatus` | packages/shared/src/background/background.ts:819-885 | the step of a status |
| `IntentQueue.IntentKeeper.FallbackCallback` | packages/shared/src/background/background.ts:1268-1276 | when the read's callback acts |
| `IntentQueue.IntentKeeper.SendCorrectiveDown` | packages/shared/src/background/background.ts:1282-1289 | the latch follows the send |
| `IntentQueue.IntentKeeper.HandleDisconnect` | packages/shared/src/background/background.ts:1027 | a disconnect opens a new corrective window |
| `SplitDns.SplitDnsAnswers` | host/dns.go:148-202 | the walk with tables and loop detection gives what the plain walk of at most sixteen names gives, and validates the response first |
| `SplitDns.Tabulate` | host/dns.go:166-185 | the tables hold every name's addresses in order and its last alias |
| `SplitDns.FollowAliases` | host/dns.go:186-202 | loop detection never changes the outcome |
| `SplitDns.LookupRecord` | host/dns.go:121-146 | distinct queries, at most sixteen; the result is that of the plain chase; CNAME records of responses to these queries lead to a name, and records of that name, type and class bear every address returned |
| `SplitDns.ValidatedIff` | host/dns.go:148-165 | a response counts iff it answers the one question asked, with no error and nothing cut off |
| `SplitDns.AddressesAre` | host/dns.go:166-182 | the addresses of a name are those its address records bear, in order, with IPv4-mapped ones unmapped |
| `SplitDns.AliasIff` | host/dns.go:182-184 | the alias of a name is the target of its last CNAME record |
| `SplitDns.FoundIff` | host/dns.go:186-194 | following one response finds addresses iff one of the first sixteen names of its chain has some, those of the first |
| `SplitDns.EndedIff` | host/dns.go:195-198 | and ends without any iff the chain ends within sixteen names and none has any |
| `SplitDns.ChaseIff` | host/dns.go:121-146 | a lookup gives these addresses iff one of its first sixteen queries settles on them, and else an error |
| `SplitDns.AskedIsAbsolute` | host/dns.go:122-126 | the name asked for is absolute, in lower case, and the same for every spelling of the host |
| `SplitDns.ChaseNames` | host/dns.go:127-146 | the same for any starting name |
| `SplitDns.ChainYieldsFirst` | host/dns.go:186-202 | a chain of at most fifteen links that ends at addresses yields those of its first name that has any |
| `SplitDns.ScanFindsFirst` | host/dns.go:187-200 | the walk finds the first owner on the chain |
| `SplitDns.FoundIsFirst` | host/dns.go:187-200 | and finds nothing else |
| `SplitDns.CirclingFails` | host/dns.go:129-131 | names that only lead to one another end in an error |
| `Taildrop.TotalsAreSums` | host/taildrop.go:80-138 | in every run byte totals are the sums of the stored parts, within 50 MiB, and no complete transfer stays pending |
| `Taildrop.PushedExactlyOnce` | host/taildrop.go:66-168 | chunks of one transfer, in any order and interleaved with anything, push the in-order concatenation exactly once |
| `Taildrop.PushedOnLastChunk` | host/taildrop.go:127-168 | a chunk is answered with the whole file iff it is the last missing one, and with progress otherwise |
| `Taildrop.FileArrives` | packages/shared/src/popup/components/peer-item.ts:472-491 | a chunked file up to 50 MiB is pushed as itself |
| `Taildrop.SendFileChunked` | packages/shared/src/popup/components/peer-item.ts:472-491 | the slices concatenate to the file, none is empty or too long, and their number is within the helper's limit |
| `Taildrop.AcceptChunk` | host/taildrop.go:87-138 | a chunk not sent before is accepted and stored |
| `Taildrop.RefusedIff` | host/taildrop.go:66-125 | in every run, by numbers: exactly which chunks are refused, what that drops, and that no other transfer changes |
| `Taildrop.AcceptedIs` | host/taildrop.go:96-168 | in every run an accepted chunk is stored in its place with those before it; the reply counts them, or is the file |
| `Taildrop.Reassembler.HandleSendFileChunked` | host/taildrop.go:66-168 | the handler's branches compute the reply and the transfers of the model |
| `Taildrop.Reassembler.CountFilled` | host/taildrop.go:131-136 | the number of parts present |
| `Taildrop.Reassembler.ExpireTransfer` | host/taildrop.go:170-176 | the removal of an expired transfer |
| `Taildrop.Reassembler.CancelTransfers` | host/taildrop.go:303-315 | the removal of all |

## Left out

- Popup, icons, badges, toasts, native framing, reconnect back-off, diagnostics, command line and installers other than the Flatpak transaction: user interface and plumbing that would only add easy members.
- Tailscale's libraries, SOCKS and HTTP: their results are arbitrary inputs, and their test for a tailnet address is any predicate within the two tailnet ranges.
- Timeouts, timers and the wall clock: expiry and delays are steps that may come at any moment; the settle window of the startup resolution is an arbitrary delay.
- Text beyond ASCII: lower-casing follows ASCII.
- The PAC program is an abstract syntax tree; the text that JavaScript would parse, and the dotted masks in it, are not modelled. Masks are prefix lengths, and `&` with a mask is arithmetic on the value.
- Sorting and compacting of the app PAC's lists, and its names and domains: the networks are a sequence whose order does not matter to the result.
- AppPacText.FindProxyForHost: the text printed for a network is any strict text of its address, and its length arrives as a number.
- RoutingManager.Protection.RestoreFrom: the stored value is typed; values of other types, and the comparison that skips an identical write, are not modelled.
- Firefox requests whose URL does not parse, which go direct.
- FirefoxProxy.SameDecision: is stated for hosts that are not four labels beginning with digits, and for a helper port other than the closed one; `AgreeOnlyIfStrict` shows the first is necessary.
- Host session: the server object travels with its client, startup corrections and the web server cache are not modelled, and DNS dials made while resolving are not attempts.
- HostSession.AuthorizedAgainstCurrentMap: what a map permits under given preferences is an arbitrary relation; the second reading of the preferences is not modelled.
- FlatpakActivation.Activate: directories are not part of the file map, targets, stages and the backup directory do not lie inside one another, and the backup directory, which is named after the clock, starts empty.
- External proxy: generated credentials are numbers, the last error text is not kept, and a bound listener has no traffic.
- IntentQueue.DrainedStoresDecision: storage writes do not fail, `up` commands are not modelled, and the automatic connection's delayed decision is an ordinary recorded one.
- HelperPolicy.ChooseTargets: how a name is resolved into the answers, and the ports, are not part of it; the networks of this host are any list of prefixes.
- SplitDns.LookupRecord: the reply to a name is fixed, since no name is queried twice; messages are decoded, and the race between the two address types is not modelled.
- Taildrop: base64 is a decoded value or a failure, the push itself and progress percentages are not modelled.
