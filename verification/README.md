# Verified model of the vCPU market, the configuration language and their helpers

This project models the parts of the server in which a mistake would be silent: the market that
shares the CPU time of a host among virtual machines, the controllers that feed it, the tokenizer and
the configuration language built on it, socket addresses, and the best-fit placement used to size a
host. Run `dafny verify dfyconfig.toml` to check it.

## The market

`VcpuModel` holds the fields of a vCPU controller and what each operation does to them; `MarketModel`
the five stages of a round (base sale, auction, proportional split, even spread, quotas); `ControlModel`
the control loop with its ticks, rounds and resets. These are functions on values, and the theorems are
about them:

* `AuctionProofs` and `Fairness`: the auction over a list that shrinks while it is walked, with accounts
  shared by the vCPUs of a VM. It terminates, conserves cycles and money at every step, fails a buyer
  only for a reason, and keeps buyers that are short of nothing level to within one window.
* `ServiceOrder`: the queue keeps the order of the opening list, so of two such buyers the earlier one is
  never behind the later one, and never more than a window ahead of it.
* `SaleProofs` and `ShareProofs`: what each stage gives a single vCPU, in numbers alone. The sale in its
  four cases, from what was consumed and allowed; a purchase, which stops only at a limit; the split, to
  each bidder in proportion to its want; the spread, which is even over all vCPUs of all VMs.
* `RoundProofs` and `VcpuProofs`: a whole round never allocates more than the host, wastes less than a
  cycle per vCPU unless some vCPU has a full CPU, keeps each vCPU in its bounds and each account exact.
* `RunProofs` and `LedgerProofs`: the same over every run of the control loop, with the sliding history,
  the telescoping usage counters, clocks and frequencies, and the exact ledger of every account over all
  rounds and resets.
  `OverpaidRun` is a run in which an account is credited more than its vCPUs saved.
* `RecoveryProofs`: on an admitted host a vCPU that uses all its capping is back at its nominal share
  after a bounded number of rounds.
* `Regression`: the slope of the history is the least-squares one.

`Controllers`, `RunningVms`, `MarketRun` and `Server` are the objects: classes whose fields the methods
change in place, with the loops of the source. Every method is proved to do to the objects what the
function of the value layer does to the values, so each theorem above holds of the objects.
`Server.Controller.CpuControlLoop` ties whole runs together.

Facts of the source that the model keeps: accounts are credited even in a round that is then refused;
`buying` is cleared only before a round; the counter of the control loop goes 0, 1, 1, 1, ..., so the
market runs on every tick but the first; a capping that does not fit an unsigned word converts to an
unspecified value (the input `wild`), which no decision uses in the first four rounds; the subtraction
`max - nominal` wraps around.

## The configuration language and the tokenizer

`Pieces` says what maximal munch means and proves that it determines the pieces of a text uniquely.
`Tokenization` has the cursor machine with its stack of positions. `TomlModel` is the parser as a
function of a position in the pieces, and the printer; `Toml` the methods that drive a tokenizer and
fill a text. `Floats` has floats as exact decimals, printed with the six significant digits of a stream
and read as stof reads them.

`TomlGrammar` gives the language by a grammar on values as they stand in the text, and proves that a text
is read as a configuration exactly when the grammar spells it that way; every other text is an error. The
grammar shows what the code accepts beyond the usual: a comma before a closing bracket, and an inline
dictionary left open before a bracket or the end of the text. `Tokenization.NextExact` says which piece is
the next token, comments and spaces being gaps, and `TomlComments` carries that to whole texts: a comment at
the end of a line changes nothing, unless it stands in a string.

`TomlPrinting` writes a text for every configuration the language can express: each boolean as its word,
each string in a quote it does not hold, floats with all their digits, inline dictionaries nested to any
depth. `TomlProofs` reads it back, so that every such configuration is the value of its text;
`TomlExactness.ImageExact` adds that no other configuration is the value of any text, empty inline
dictionaries aside. What the printer itself writes is that text for the configurations it can print, without
the lines of booleans; this gives its round trip.

`TomlExactness` proves which items, which lines and which configurations come back from the printer, each
as an if-and-only-if over all of them. Its main argument is a measure on texts (`TomlCounting`): reading a
value uses up at least as much of the text as the value is worth, printing it writes at most that much, and
strictly less if it holds a boolean, a float that loses its point or its digits, a double quote, or a
dictionary where no braces are printed. So no text, however it is read out of step, can return such a value.
`TomlNumbers` says what every number becomes instead. `TomlImage` has what the parser can return at all, and
`TomlOrder` that dictionaries behave as ordered maps.

What comes back is exactly this: sections whose lines hold 32-bit integers, floats of at most six digits
that are printed with a point, strings without double quotes and hash signs, arrays of these, or one
level of inline dictionary with at least one such entry. A boolean leaves an empty line and is lost. A
whole float such as 1.0 is printed as an integer, 3.14159265 as 3.14159, and 1000000.0 as 1e+06, which is
read as the integer 1.

A parse error reports the line of its token exactly when the token is not the first of its line. The
first token of a text gets one more than the number of all lines, and the first token of any other line
the number of the line before; `TomlErrors` has the exact condition and a family of texts for each case.

`Address` packs the first byte of an address lowest, as the code does; the comment at
src/monitor/net/addr.hh:27-29 describes the opposite order, and `Address.ByteOrder` says for which
addresses the two agree.

## Model

| member | source | states |
|---|---|---|
| Regression.LeastSquares | src/monitor/libvirt/controller/vcpu.cc:202-221 | Over all lines, the fitted one has the least squared error, and it alone. |
| Regression.SlopeExactOnLines | src/monitor/libvirt/controller/vcpu.cc:202-221 | A history on a line gets the slope of that line; a constant one gets 0. |
| Regression.SpreadPositive | src/monitor/libvirt/controller/vcpu.cc:214-220 | The divisor of the slope is positive for two or more points. |
| Regression.ComputeSlope | src/monitor/libvirt/controller/vcpu.cc:202-221 | The two loops compute the least-squares slope. |
| VcpuModel.QuotaTight | src/monitor/libvirt/controller/vcpu.cc:104-107 | A quota grants at most what was asked, and for a period dividing a second falls short by less than one step. |
| VcpuModel.QuotaStable | src/monitor/libvirt/controller/vcpu.cc:134-137 | Applying again what a quota grants leaves it unchanged exactly when the grant is whole, and always for a period dividing a second. |
| VcpuModel.QuotaUnstableExample | src/monitor/libvirt/controller/vcpu.cc:134-137 | With period 3 the quota 2 shrinks to 1. |
| VcpuModel.MarketQuota | src/server/market/vcpu.cc:71-73 | With the market's period a capping is within 10 below the allocation, and never below one percent of a CPU if the allocation is not. |
| SaleProofs.LimitExact | src/monitor/libvirt/controller/vcpu.cc:134-142 | The limit given to the cgroup is -1 exactly from 85 percent of a CPU on, and the quota below. |
| SaleProofs.AbsoluteExact | src/monitor/libvirt/controller/vcpu.cc:100-111 | The absolute consumption is the consumption per second rounded down, and the percentage a ten thousandth of it. |
| SaleProofs.CyclesExact | src/monitor/libvirt/controller/vcpu.cc:49-51 | What one reading adds to the frequency is the frequency weighted with the share of time the vCPU ran, rounded down. |
| SaleProofs.NominalExact | src/server/market/vcpu.cc:128 | The nominal share is the share of a second that the nominal frequency is of the CPU's, rounded down. |
| SaleProofs.SoldExact | src/server/market/vcpu.cc:123-206 | What is sold lies between min(nominal, demand) and max(min, demand), never above nominal; what is wanted is the demand beyond nominal; the demand is at most a full CPU. |
| SaleProofs.SteadySale | src/server/market/vcpu.cc:138-151 | With a flat slope the demand is what was consumed plus one percent of a CPU, up to a full CPU. |
| SaleProofs.IdleSale | src/server/market/vcpu.cc:156-169 | Below the decrement trigger the demand is the capping times 1 - decreasingSpeed rounded down, raised to what was consumed and to one percent of a CPU, and never more than the largest of capping, consumption and one percent. |
| SaleProofs.BusySale | src/server/market/vcpu.cc:174-187 | Above the increment trigger the demand is the capping times 1 + increasingSpeed rounded down, up to a full CPU. |
| SaleProofs.MiddleSale | src/server/market/vcpu.cc:192-204 | Between the triggers the demand is the capping, up to a full CPU. |
| AuctionProofs.StepDecreases | src/server/market/vcpu.cc:81-104 | Every served buyer lowers what is wanted plus the number queued; a new pass keeps it and has someone to serve. |
| AuctionProofs.RunAuction | src/server/market/vcpu.cc:77-107 | The auction terminates, with no pass in progress and the market or the list empty. |
| AuctionProofs.StepInv | src/server/market/vcpu.cc:81-104 | One purchase, failure or dismissal conserves cycles and money, queues each buyer once and keeps `allNeeded` the sum of what the failed want. |
| AuctionProofs.AuctionOutcome | src/server/market/vcpu.cc:77-107 | At the end sold plus unsold is unchanged, each VM paid exactly for what it got, each vCPU only turned wants into allocation, the failed are listed once with `allNeeded` their total, and if cycles are left every buyer is served in full or failed with an empty account or window. |
| Fairness.RunTrace | src/server/market/vcpu.cc:81-104 | The run of an auction is a trace of its steps. |
| Fairness.Fair | src/server/market/vcpu.cc:81-104 | At every step of a trace two buyers never limited by demand or account have bought within one window of each other. |
| ShareProofs.PurchaseGreedy | src/server/market/vcpu.cc:83-103 | A purchase takes cycles until the window, the account, the want or the market is used up; the market, the account and the want go down by exactly what is bought. |
| ServiceOrder.QueueOrdered | src/server/market/vcpu.cc:82-103 | At every step the queued buyers stand in the order of the opening list. |
| ServiceOrder.FirstServed | src/server/market/vcpu.cc:82-103 | At every step, of two buyers never limited by demand or account the earlier in the list has bought at least as much as the later, and at most a window more. |
| ServiceOrder.BiddersAscending | src/server/market/vcpu.cc:109-121 | The opening list goes through the VMs in order, and within a VM through its vCPUs in order. |
| RoundProofs.SaleBounds | src/server/market/vcpu.cc:123-206 | With min <= nominal <= max a vCPU is sold between min and its nominal share, at least min(nominal, target), and a bidder's allocation and want together are min(max, target). |
| RoundProofs.BiddersExact | src/server/market/vcpu.cc:109-121 | The list of buyers holds exactly the vCPUs whose target exceeds their nominal share, each once. |
| RoundProofs.SharesFit | src/server/market/vcpu.cc:47-57 | The proportional shares sum to at most the rest, and miss it by less than one cycle per failed bidder. |
| RoundProofs.ServeTotals | src/server/market/vcpu.cc:50-56 | The allocations gain exactly the shares served. |
| RoundProofs.DividedBooks | src/server/market/vcpu.cc:47-58 | After the split the unsold amount is not negative and sold plus unsold is unchanged. |
| ShareProofs.SplitProportional | src/server/market/vcpu.cc:47-57 | Each failed bidder gets its part of the rest in proportion to its want, rounded down, and nobody else gets anything. |
| RoundProofs.SpreadTotals | src/server/market/vcpu.cc:60-69 | The spread gives at most its share to each vCPU, and exactly that if nobody reaches a full CPU. |
| ShareProofs.SpreadEven | src/server/market/vcpu.cc:60-69 | Any two vCPUs that end below a full CPU, in one VM or in two, gain the same from the spread, namely the unsold cycles over the number of vCPUs, and one that ends with a full CPU gains at most that. |
| ShareProofs.RoundEven | src/server/market/vcpu.cc:33-74 | So in every round that is applied, for vCPUs with a proper nominal share. |
| RoundProofs.FinishBooks | src/server/market/vcpu.cc:47-69 | After the auction no stage sells more than is left, and without a full vCPU less than one cycle per vCPU remains. |
| RoundProofs.CapacityAndWork | src/server/market/vcpu.cc:33-74 | A round that is not refused allocates at most nprocs * 1000000; either some vCPU gets the full 1000000 or fewer than nbVcpus microseconds stay unsold. |
| VcpuProofs.DividedAt | src/server/market/vcpu.cc:50-56 | The split leaves allocation plus want of each vCPU unchanged, never lowers an allocation and costs no money. |
| VcpuProofs.FinishAt | src/server/market/vcpu.cc:47-69 | No stage after the auction lowers an allocation or exceeds a full CPU, and nothing else of a vCPU or account changes. |
| VcpuProofs.VcpuBounds | src/server/market/vcpu.cc:33-74 | Every vCPU with a proper nominal share ends a round with min <= allocated <= max and at least min(nominal, target). |
| VcpuProofs.CreditExact | src/server/market/vcpu.cc:138-204 | The credit of a vCPU is what a non-bidder leaves of its share plus what it is overpaid; it is overpaid if and only if its target is below min, which a flat slope or a capping of at least min rules out. |
| VcpuProofs.CreditInexactExample | src/server/market/vcpu.cc:174-186 | A vCPU whose quota was never set can be credited 10000 too much when its capping converts to 0. |
| VcpuProofs.RoundLedger | src/server/market/vcpu.cc:33-74 | In one round, refused or not, money after plus bought equals money before plus saved plus overpaid. |
| VcpuProofs.AdmittedNeverRefused | src/server/market/vcpu.cc:39-42 | If the nominal shares fit the host the base sale does not overcommit it. |
| RunProofs.RunSound | src/server/control.cc:54-72 | Every reachable state defines all divisions of the next tick and keeps the nominal shares proper. |
| RunProofs.NextAt | src/server/control.cc:54-72 | What one event does to one vCPU: nothing, an update, or an update, a sample and a quota if the round is applied. |
| RunProofs.MarketAt | src/server/market/vcpu.cc:33-74 | A refused round keeps the quota of a vCPU, an applied one gives it a capping between min and max; what was observed stays. |
| RunProofs.RunKept | src/monitor/libvirt/controller/vcpu.cc:193-200 | In every run the history has min(rounds, 5) entries, the slope is 0 before it is full, and after an applied round the capping is at least min. |
| RunProofs.Telescope | src/monitor/libvirt/controller/vcpu.cc:42-70 | In every run the history is the window of the latest percentages in order, the slope is its regression once full, each consumption is the increase of the usage counter since the previous round, each interval the time between, and the frequency the mean of what the readings added. |
| LedgerProofs.Ledger | src/server/market/vcpu.cc:27-74 | Over every run without resets the money of a VM plus all it bought equals its initial money plus all its vCPUs saved and were overpaid; with resets it is at most that. |
| LedgerProofs.LedgerExact | src/server/market/vcpu.cc:27-74 | Without resets, money plus bought equals initial money plus saved if and only if nobody was ever overpaid. |
| LedgerProofs.InTimePaid | src/server/market/vcpu.cc:27-74 | Nobody is ever overpaid in a run in which one of the first four rounds is applied. |
| OverpaidRun.OverpaidReachable | src/server/market/vcpu.cc:41-42 | A run from fresh controllers with four refused rounds, in whose fifth round the plain ledger fails by 30000 cycles. |
| LedgerProofs.RunNominal | src/server/market/vcpu.cc:128 | No event changes the sum of the nominal shares. |
| LedgerProofs.AdmittedRun | src/server/market/vcpu.cc:41-42 | If the nominal shares fit the host, every round of every run is applied; so nobody is ever overpaid. |
| RecoveryProofs.RoundGrows | src/server/market/vcpu.cc:123-206 | An applied round raises the capping of a vCPU that used all of it by LEAST or the increasing speed, less at most 9, up to its nominal share less at most 9. |
| RecoveryProofs.Recovers | src/server/market/vcpu.cc:33-74 | After n such rounds in a row it has gained n times that, or is at its nominal share less at most 9. |
| RecoveryProofs.BackAtNominal | src/server/market/vcpu.hh:66-82 | On an admitted host enough busy rounds after the first one always bring a vCPU back to its nominal share less at most 9. |
| Controllers.LibvirtVcpu.constructor | src/monitor/libvirt/controller/vcpu.cc:16-28 | A new controller is fresh, with the quota never set and an empty history. |
| Controllers.LibvirtVcpu.Update | src/monitor/libvirt/controller/vcpu.cc:42-55 | The fields change as one reading says. |
| Controllers.LibvirtVcpu.UpdateBeforeMarket | src/monitor/libvirt/controller/vcpu.cc:57-70 | The interval is closed, the market fields are cleared and the history slides. |
| Controllers.LibvirtVcpu.AddToHistory | src/monitor/libvirt/controller/vcpu.cc:193-200 | The percentage enters the window and the slope follows once the window is full. |
| Controllers.LibvirtVcpu.SetQuota | src/monitor/libvirt/controller/vcpu.cc:134-145 | The quota, the period and the enforced limit, unlimited from 85 percent on. |
| Controllers.LibvirtVm.constructor | src/monitor/libvirt/vm.cc:13-34 | A VM with an empty account and fresh controllers of its own. |
| Controllers.LibvirtVm.ApplyMarketAllocation | src/monitor/libvirt/vm.cc:184-189 | Every vCPU gets the quota of its allocation. |
| Controllers.LibvirtVm.UpdateControllers | src/monitor/libvirt/client.cc:90-98 | The inner loop updates each controller once. |
| Controllers.LibvirtVm.UpdateBeforeMarket | src/monitor/libvirt/client.cc:100-106 | The inner loop prepares each controller once. |
| RunningVms.OneChange | src/monitor/libvirt/vm.cc:180-182 | Changing one controller and the account of its VM changes the books there and nowhere else. |
| MarketRun.VcpuMarket.SellBaseCycles | src/server/market/vcpu.cc:123-206 | The four branches set allocation, want and account as specified, lower the market by the allocation and report whether the vCPU bids. |
| MarketRun.VcpuMarket.SellVm | src/server/market/vcpu.cc:112-117 | The inner loop sells to each vCPU of a VM once and lists its bidders in order. |
| MarketRun.VcpuMarket.SellAll | src/server/market/vcpu.cc:109-121 | The sale leaves the specified books, the market short of exactly the total allocation, the count of vCPUs and the bidders. |
| MarketRun.VcpuMarket.Purchase | src/server/market/vcpu.cc:89-93 | A purchase moves cycles from want to allocation, paid by the account shared within the VM, and touches nothing else. |
| MarketRun.VcpuMarket.ServeNext | src/server/market/vcpu.cc:82-103 | One iteration with its erasure from the list is one step of the specified auction. |
| MarketRun.VcpuMarket.Pass | src/server/market/vcpu.cc:82-103 | A pass terminates and leaves the outcome of the auction unchanged. |
| MarketRun.VcpuMarket.BuyCycles | src/server/market/vcpu.cc:77-107 | The two nested loops terminate and end in the books, market, failed buyers and `allNeeded` of the specified auction. |
| MarketRun.VcpuMarket.GiveShare | src/server/market/vcpu.cc:51-54 | One failed bidder gets its share and nothing else changes. |
| MarketRun.VcpuMarket.SplitRest | src/server/market/vcpu.cc:47-58 | The loop serves all failed bidders and returns exactly what stays unsold. |
| MarketRun.VcpuMarket.SpreadAll | src/server/market/vcpu.cc:60-69 | Every vCPU of every VM is raised once, up to a full CPU. |
| MarketRun.VcpuMarket.ShareOut | src/server/market/vcpu.cc:44-69 | Split and spread together end in the specified books. |
| MarketRun.VcpuMarket.ApplyAll | src/server/market/vcpu.cc:71-73 | Every VM applies its allocations. |
| MarketRun.VcpuMarket.Run | src/server/market/vcpu.cc:33-74 | One round on the objects, with its two early returns, is the specified round. |
| MarketRun.VcpuMarket.Reset | src/server/market/vcpu.cc:27-31 | All accounts are emptied and nothing else changes. |
| Server.LibvirtClient.UpdateVcpuControllers | src/monitor/libvirt/client.cc:90-98 | Every controller of every VM is updated with its own reading. |
| Server.LibvirtClient.UpdateNext | src/monitor/libvirt/client.cc:94-96 | Updating the controllers of one VM leaves all other VMs as they are. |
| Server.LibvirtClient.UpdateVcpuBeforeMarket | src/monitor/libvirt/client.cc:100-106 | Every controller of every VM is prepared. |
| Server.Controller.Frame | src/server/control.cc:57-70 | The body of the loop is one tick of the specified machine, counter included. |
| Server.Controller.ResetMarketCounters | src/server/control.cc:42-52 | Accounts are emptied exactly when the market is enabled. |
| Server.Controller.CpuControlLoop | src/server/control.cc:54-72 | Over any possible sequence of events the objects go through exactly the worlds of the specified run. |
| Pieces.Advances | src/monitor/utils/tokenizer.cc:37-67 | The cursor moves at every step if and only if no delimiter is empty or a delimiter that is not empty stands at the cursor. |
| Pieces.CutJoins | src/monitor/utils/tokenizer.cc:37-67 | The pieces concatenate to the text. |
| Pieces.CutMunches | src/monitor/utils/tokenizer.cc:37-67 | Each piece is the longest delimiter at the cursor, or a maximal chunk in which no delimiter starts. |
| Pieces.CutUnique | src/monitor/utils/tokenizer.cc:37-67 | There is only one such way to cut a text. |
| Pieces.CutFrom | src/monitor/utils/tokenizer.cc:37-67 | What is cut next depends only on the text after the cursor. |
| Tokenization.RewindRepeats | src/monitor/utils/tokenizer.cc:69-72 | A token asked for again after a rewind is the same, at the same position. |
| Tokenization.RewindAtEnd | src/monitor/utils/toml.cc:44-48 | At the end of a text a rewind brings back only the appended line break, which is skipped. |
| Tokenization.NextExact | src/monitor/utils/tokenizer.cc:22-35 | A piece is the next token if and only if it is not empty, opens no comment, is not skipped, and before it lie only comments up to the first line break after their opening and skipped pieces. |
| Tokenization.CommentPassed | src/monitor/utils/tokenizer.cc:25-28 | From a comment on, the next token is the one after the first line break. |
| Tokenization.CommentToTheEnd | src/monitor/utils/tokenizer.cc:25-28 | A comment without a line break covers the rest of the text. |
| Tokenization.NextToken | src/monitor/utils/tokenizer.cc:22-35 | A token is the last piece consumed, never opens a comment and is not skipped in skip mode; only the end of the text gives "". |
| Tokenization.Tokenizer.constructor | src/monitor/utils/tokenizer.cc:10-15 | The cursor is at the start of the text with a line break appended. |
| Tokenization.Tokenizer.Nearest | src/monitor/utils/tokenizer.cc:40-50 | The search loop finds the length of the next piece. |
| Tokenization.Tokenizer.NextPure | src/monitor/utils/tokenizer.cc:37-67 | It returns the next piece of the specified cut, and the stack holds exactly the boundaries behind the cursor. |
| Tokenization.Tokenizer.PassComment | src/monitor/utils/tokenizer.cc:25-28 | A comment ends with its line or with the text. |
| Tokenization.Tokenizer.Next | src/monitor/utils/tokenizer.cc:22-35 | The loop terminates and returns the specified token and position in the current skip mode. |
| Tokenization.Tokenizer.Rewind | src/monitor/utils/tokenizer.cc:69-72 | The cursor goes back exactly one piece. |
| Tokenization.Tokenizer.GetLineNumber | src/monitor/utils/tokenizer.cc:78-85 | One more than the line breaks before the last consumed character; all of them when the cursor is at 0. |
| Tokenization.LineExact | src/monitor/utils/tokenizer.cc:78-85 | The reported line is the line at the cursor if and only if the cursor is not at the beginning of a line; at the beginning of the text it is one more than all lines, elsewhere one too low. |
| SingleDelimiters.PieceKinds | src/monitor/utils/tokenizer.cc:37-67 | With one-character delimiters every piece is a delimiter or a word, made of characters of the text. |
| SingleDelimiters.CutText | src/monitor/utils/tokenizer.cc:37-67 | A text before a delimiter is cut as if it stood alone. |
| Decimal.ScanText | src/monitor/utils/toml.cc:82-86 | stoi and atoi read a printed number back, whatever that is not a digit follows. |
| Floats.ReduceExact | src/monitor/utils/toml.cc:88-92 | Two decimals are one float exactly when they are one number. |
| FloatProofs.RoundedNearest | src/monitor/utils/toml.cc:200 | A float of more than six digits is printed as a multiple of its sixth digit's unit no further than half of it away. |
| FloatProofs.RoundedShort | src/monitor/utils/toml.cc:200 | Printing keeps a float exactly when it has at most six digits. |
| FloatProofs.PrintedRead | src/monitor/utils/toml.cc:88-92 | stof reads every printed float as its six digits, in fixed and in scientific notation, and the text has a point exactly when the notation needs one. |
| FloatProofs.WholeExample | src/monitor/utils/toml.cc:179 | 1.0 is printed as 1. |
| FloatProofs.LongExample | src/monitor/utils/toml.cc:179 | 3.14159265 is printed as 3.14159. |
| TomlModel.RewindWord | src/monitor/utils/toml.cc:126-136 | The word a value begins with is read again after the rewind, and at the end of the text nothing is. |
| TomlModel.TextOfContent | src/monitor/utils/toml.cc:141-142 | The pieces of a content are its own pieces and the appended line break. |
| TomlGrammar.LanguageExact | src/monitor/utils/toml.cc:41-159 | A text is read as a configuration if and only if the grammar spells the text so that this is its meaning; every other text is an error. |
| TomlGrammar.SpelledValue | src/monitor/utils/toml.cc:111-138 | Whatever the grammar spells as a value is read as its meaning, and the cursor stops behind it. |
| TomlGrammar.ValueSpelled | src/monitor/utils/toml.cc:111-138 | Whatever is read as a value is spelled by the grammar, with this meaning. |
| TomlComments.CommentIgnored | src/monitor/utils/tokenizer.cc:22-35 | s, a hash sign, any t without a line break, a line break and u are read as s, a line break and u, with the same value or both with an error, unless s breaks off within a string. |
| TomlPrinting.ItemPieces | src/monitor/utils/tokenizer.cc:37-67 | An item written as a text is cut into its own pieces, whatever delimiter follows. |
| TomlPrinting.SectionsPieces | src/monitor/utils/tokenizer.cc:37-67 | So is a whole configuration. |
| TomlPrinting.ItemAsWritten | src/monitor/utils/toml.cc:173-188 | The printer writes a printable item as the text the parser expects of it. |
| TomlPrinting.DumpAsWritten | src/monitor/utils/toml.cc:190-225 | So it does for sections of printable items and one level of inline dictionary, with an empty line for each boolean. |
| TomlProofs.ReadItem | src/monitor/utils/toml.cc:111-138 | The pieces of a number, a boolean, a string in either quote, an array or a dictionary, nested to any depth, are parsed to that value, and the cursor stops behind it. |
| TomlProofs.ReadItems | src/monitor/utils/toml.cc:65-80 | So are the elements of an array. |
| TomlProofs.ReadFields | src/monitor/utils/toml.cc:41-63 | So are the entries of an inline dictionary. |
| TomlProofs.ReadLines | src/monitor/utils/toml.cc:41-63 | The lines of a section are read up to the next section or the end; empty lines leave nothing. |
| TomlProofs.ReadSections | src/monitor/utils/toml.cc:141-159 | All sections are read and the text ends there. |
| TomlProofs.LiteralRead | src/monitor/utils/toml.cc:88-92 | stof reads all digits of any float, and the words for infinity and nan, as that float. |
| TomlProofs.WrittenRead | src/monitor/utils/toml.cc:41-159 | Every configuration that can be expressed has a text that is parsed to it: 32-bit integers, floats in range, each boolean from its word, each string without a hash sign from between quotes it does not hold, on lines, in arrays and in inline dictionaries. |
| TomlProofs.BooleanLine | src/monitor/utils/toml.cc:122-127 | A line with the word true is read as true, and one with the word false as false. |
| TomlProofs.RoundTrip | src/monitor/utils/toml.cc:141-225 | parse(dump(c)) is c without its booleans for every configuration of sections that hold printable items or one level of inline dictionary, with any tokens for keys; it is c itself if and only if there is no boolean. |
| TomlImage.StringLegible | src/monitor/utils/toml.cc:94-109 | A string read holds neither a hash sign nor the quote that ends it. |
| TomlImage.ParsedLegible | src/monitor/utils/toml.cc:141-159 | Whatever is parsed has only sections at the top, sorted dictionaries with single tokens for keys, integers of 32 bits, floats in range and strings without a hash sign and without one of the quotes, at every depth. |
| TomlCounting.Subadditive | src/monitor/utils/tokenizer.cc:37-67 | Joining two texts merges words and never adds weight. |
| TomlCounting.ValueNeeds | src/monitor/utils/toml.cc:111-138 | Reading a value uses up at least what it is worth, whatever the text; a double quote in a string takes the two single quotes around it. |
| TomlCounting.SectionsNeed | src/monitor/utils/toml.cc:141-159 | So does reading a configuration, although keys may be overwritten. |
| TomlCounting.ItemWorth | src/monitor/utils/toml.cc:173-188 | A printed item weighs at most what it is worth, and less if it holds a boolean, a float without point or of more than six digits, a double quote or a dictionary. |
| TomlCounting.SectionsWorth | src/monitor/utils/toml.cc:190-225 | So does a printed configuration. |
| TomlExactness.ItemExact | src/monitor/utils/toml.cc:65-188 | An element or field comes back if and only if it is a 32-bit integer, a float of six digits with a point and in range, a string without double quotes and hash signs, or an array of such items. |
| TomlExactness.LineExact | src/monitor/utils/toml.cc:41-225 | What stands on a line comes back if and only if it is such an item or one level of inline dictionary, sorted, not empty and with tokens for keys, of such items. |
| TomlExactness.EmptyInline | src/monitor/utils/toml.cc:198-206 | A printed inline dictionary without entries is a parse error, unless an equal sign follows that is not itself a key. |
| TomlExactness.ReadBrokenSections | src/monitor/utils/toml.cc:141-159 | A configuration with an empty inline dictionary on some line is a parse error. |
| TomlExactness.ConfigExact | src/monitor/utils/toml.cc:141-225 | For every configuration, parse(dump(c)) is c if and only if c has only sorted sections of such lines, with tokens for keys, and no booleans. |
| TomlExactness.ParsedStable | src/monitor/utils/toml.cc:141-225 | So what was parsed from any text is stable under printing and parsing if and only if its lines are such and it has no booleans. |
| TomlExactness.ImageExact | src/monitor/utils/toml.cc:41-159 | A configuration without empty inline dictionaries is the value of some text if and only if it can be expressed. |
| TomlNumbers.IntReadBack | src/monitor/utils/toml.cc:173-225 | Any integer comes back modulo 2^32, in the signed range. |
| TomlNumbers.FloatReadBack | src/monitor/utils/toml.cc:173-225 | A float comes back as its six digits if they are printed with a point and in range; a whole number of up to six digits becomes that integer, in scientific notation without a point its first digit does, and infinity, nan and what is rounded out of range are errors. |
| TomlExactness.FloatsLost | src/monitor/utils/toml.cc:179-214 | 1.0 and 3.14159265 do not come back, neither as items nor in a section. |
| TomlOrder.InsertUpdates | src/monitor/utils/config.cc:185-188 | Inserting in a sorted dictionary is updating the map it stands for, and keeps it sorted. |
| Toml.AssertMsg | src/monitor/utils/toml.cc:34-39 | A failed test rewinds one token and reports the line there. |
| TomlErrors.ErrorLine | src/monitor/utils/toml.cc:34-39 | An error about a token reports its line if and only if the token is not the first piece of its line; what is reported otherwise. |
| TomlErrors.FirstLineExample | src/monitor/utils/toml.cc:147 | A text that is one word is an error in line 2. |
| TomlErrors.NextLineExample | src/monitor/utils/toml.cc:50 | A section with a key and then, on line 3, a word in place of the equal sign is an error in line 2. |
| Toml.ParseDictionary | src/monitor/utils/toml.cc:41-63 | The loop terminates with the specified dictionary or error, and the tokenizer stands behind it. |
| Toml.ParseList | src/monitor/utils/toml.cc:65-80 | The same for arrays. |
| Toml.ParseNumber | src/monitor/utils/toml.cc:82-86 | The same for integers, with the two errors of stoi. |
| Toml.ParseDecimal | src/monitor/utils/toml.cc:88-92 | The same for floats, with the two errors of stof. |
| Toml.ParseLiteral | src/monitor/utils/toml.cc:94-109 | The same for strings, with skipping off until the closing quote. |
| Toml.ParseAny | src/monitor/utils/toml.cc:111-138 | The same for values, with the rewind before numbers. |
| Toml.ParseConfig | src/monitor/utils/toml.cc:141-159 | The whole parser terminates on every text with the specified configuration or error. |
| Toml.DumpArray | src/monitor/utils/toml.cc:173-188 | The loop prints the specified text of an array. |
| Toml.DumpDictionary | src/monitor/utils/toml.cc:190-225 | The loops print the specified text of a dictionary in its global and its inline form. |
| Address.PackRoundTrip | src/monitor/net/addr.cc:14-36 | Unpacking what toN packs gives the address back. |
| Address.UnpackRoundTrip | src/monitor/net/addr.cc:14-36 | Packing what any int unpacks to gives it back modulo 2^32. |
| Address.ByteOrder | src/monitor/net/addr.cc:28-36 | The packed number is the documented one exactly for addresses that read the same backwards. |
| Address.ReadExact | src/monitor/net/addr.cc:59-75 | A text is an address if and only if its pieces other than spaces are separated, from the second on, by three dots and a colon; then the five others are the fields, and otherwise the error holds the whole text. |
| Address.ReadsFields | src/monitor/net/addr.cc:59-75 | Any five fields with the right separators are read, modulo the widths of octets and port, fields that are no numbers as 0, the last one with the appended line break. |
| Address.RoundTrip | src/monitor/net/addr.cc:59-97 | Reading the printed form of any socket address gives it back. |
| Address.ReadAddress | src/monitor/net/addr.cc:59-75 | The constructor steps the tokenizer to the specified address or error. |
| BestFit.BestUnique | test/placement/bestfit.py:9-15 | There is only one first tightest block. |
| BestFit.Best | test/placement/bestfit.py:9-15 | The chosen block is the first of the smallest that fit, or -1 when none fits. |
| BestFit.Conserved | test/placement/bestfit.py:8-19 | Every block has lost exactly the load placed in it, no block is overfilled, and only blocks are assigned. |
| BestFit.Unplaced | test/placement/bestfit.py:8-19 | A process left out fits in no block at the end. |
| BestFit.AnyFit | test/placement/bestfit.py:8-19 | With blocks of one size, any two blocks in use together hold more than one block. |
| BestFit.PackingBound | test/placement/bestfit.py:8-26 | Two or more blocks in use are more than half full on average. |
| BestFit.BlocksBound | test/placement/bestfit.py:8-26 | At most 2 * placed / C + 1 blocks are used. |
| BestFit.Competitive | test/placement/bestfit.py:8-26 | Any placement of at least the same processes in such blocks needs more than half as many blocks. |
| BestFit.ClassesAddUp | test/placement/bestfit.py:20-26 | The three class counters of a block add up to its total. |
| BestFit.Search | test/placement/bestfit.py:9-15 | The inner loop finds the specified block. |
| BestFit.Tally | test/placement/bestfit.py:20-26 | One placed process is counted in its class and in all. |
| BestFit.PlaceNext | test/placement/bestfit.py:8-26 | One process is placed as specified, and no other block or allocation changes. |
| BestFit.PlaceAll | test/placement/bestfit.py:1-26 | The loops leave the specified block sizes and allocation in place, keep the blocks beyond m and fill the four counters. |

## Left out

- Float rounding and the overflow of machine words: numbers of the market are exact integers and reals, rounded down where the code casts to an integer. Only `max - nominal`, the conversion of a capping and the 32 bits of printed integers wrap.
- Configurations of the market outside its arithmetic: cpuFreq of 0, negative speeds and a decreasing speed above 1; and a host whose VMs have no vCPU at all, where the code divides by zero.
- VMs that are added, removed or provisioned: the list of running VMs is fixed during a run, and the registry of the client is not modelled.
- The kernel's own enforcement: from 850000 microseconds on the cgroup is set to unlimited. The limit written is modelled, but the capacity theorem is about allocations.
- Reading usage counters, frequencies, core numbers, clocks and the market's JSON file: these are inputs. Mutexes, threads, the wait between frames, logs and the removal of log files are left out; a reset happens between two ticks.
- VcpuProofs.VcpuBounds: needs `buying` to be 0 on entry, which the preparation before every round establishes.
- Toml.ParseDecimal: a float is the exact decimal that was read, without the rounding to binary. Six digits survive that rounding, so what comes back is the same; but two decimals that round to one binary float are different values here, and the range limits are those of the decimal.
- TomlExactness.ImageExact: leaves empty inline dictionaries aside. They are read only when a section ends right behind the opening brace, which `TomlGrammar.LanguageExact` covers.
- TomlComments.CommentIgnored: says nothing of a text that breaks off within a string, because there the line break belongs to the string without the comment and to the comment with it, and the values differ.
- Address.ReadAddress: numbers beyond the range of atoi, whose result the language leaves open, are taken modulo the width of the field.
- BestFit.PlaceAll: m and n at most the lengths of the lists; beyond them Python raises an error.
- BestFit.PackingBound: blocks of one size only, because the bound is about those; conservation and tightest fit hold for any sizes.
- `config::dict` and `config::array` keep untyped pointers with type names; here a value is a datatype.
- `src/server/market/cpu.cc` and `src/server/market/memory.cc`: their markets are commented out in the source.
- The client program, sockets, listeners, provisioning, plotting and database scripts, and the vendored libraries.
