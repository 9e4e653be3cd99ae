# Verified model of the SBC's caller-ID selection, capacity planning and PhraseGuard

A Dafny model of the parts of the repository whose behaviour is hardest to see from any one function, with proofs of
what they promise together.

- **PhraseGuard's matcher** (`Normalize`, `SpokenText`, `EditDistance`, `Levenshtein`, `Corpus`, `WakeLaws`, `Spans`,
  `Matcher`, `Matching`, `MatchLaws`, `MatchReports`, `Incremental`): tokens, banded edit distance, inverted index,
  incremental span scan, exclusion veto, overlap filter.
- **One call's window and scorer** (`CallWindows`, `Scorer`, `ScorerLaws`, `CallRuns`, `WindowLaws`, `ChargeLaws`):
  eviction, the duplicate guard, "newly crossed".
- **Number selection** (`DidRing`, `DidProtocol`, `DidRefinement`, `SequentialPicks`, `TimeoutLaws`, `LossLaws`,
  `LostCounts`): the sequential ring walk, and the concurrent protocol of channels over shared rotors, per-number locks
  and daily counters, one step per dialplan priority that touches shared state.
- **The call path** (`Dialplan`, `CallChecks`, `DialplanLaws`, `Gateways`, `GatewayLaws`): every check up to Dial, the
  caller ID asserted, the gateway loop.
- **Capacity** (`Projection`, `Refusals`, `WholePeriod`, `PoolLoads`, `Planner`, `PlanOrder`, `PlanEffects`,
  `Reallocate`, `DonorLaws`, `Capacity`, `ProtocolDay`, `OverdrawnDay`): the refusal projection, the two-pass planner,
  the executor with its guard, and all three joined end to end, for calls taken one at a time and for any interleaving
  of concurrent ones.
- **Stream code** (`Pcap`, `PcapOrders`, `RtpDemux`, `RtpHeaders`, `RtpStreams`, `RtpLives`, `RtpLaws`): pcap writer and
  reader, RTP ring buffers.
- **Hangups** (`Channels`, `ChannelTexts`, `ListingLaws`, `ProbeLaws`, `TableRuns`, `TwinChannels`, `Resolver`,
  `ResolverLaws`): the Call-ID index over changing listings.
- **Customer counters** (`Counters`, `CounterRates`, `CounterLaws`, `AlertLaws`): rolling counts, their state file and
  the alerts.

`Common`, `Numbers` and `Sorting` hold what several of these share.

`dafny verify dfyconfig.toml` checks the whole project.

Code that changes state is a class or a loop proved equal to a function of the old state; what the source promises is
then proved about those functions: over every interleaving (`DidProtocol.Run`), every day of calls (`DialplanLaws.Work`,
`Refusals.PlaceAll`), every run of a window, demultiplexer, channel table or counter book (`CallRuns.Runs`,
`RtpLaws.Runs`, `TableRuns.Run`, `CounterLaws.Run`).

## Where a promise does not hold as stated

For each, what does hold is proved, with the exact condition or a case in which the promise fails.

- The incremental scan is said to reach every span. It does if and only if `brand_span` is at most the corpus's widest
  span plus one (`Incremental.ScanIsCompleteIff`).
- A phrase said word for word is a score-1 candidate wherever it is said if and only if it is no brand longer than
  `brand_span`, or one of its scored tails sounds like the whole (`MatchLaws.AlwaysHeardIff`). A brand for which nothing
  at all is returned is `MatchLaws.ALongBrandMissed`.
- The refusal projection is called exact. It is if and only if no number serves two pools or one pool twice
  (`Refusals.ExactIffUnshared`); otherwise it is a lower bound. For concurrent calls on an unshared fleet it is
  exact if and only if it is nought or no pool gave out more than its numbers at the cap
  (`ProtocolDay.ProjectedIffNoPoolOverdrawn`), which takes a timeout: a run in which one does it is
  `OverdrawnDay.EveryCallServed`.
- A plan adds no projected refusals if and only if headroom is at least -20 or at most -100 percent
  (`PlanEffects.SafeHeadrooms`).
- The attempt clamp rules a redialled gateway out only when none is skipped for its CPS: a skip brings the ring round
  again. With two attempts or more, up to s skips are harmless if and only if s plus the attempts is at most the number
  of gateways (`Gateways.RedialFreeIff`, `Gateways.TheClampIsNeeded`).
- A channel's Call-ID can become unresolvable while the channel is listed, and stays so: a run that gets there is
  `TwinChannels.AListedChannelIsLost`. Every known Call-ID stays resolvable throughout a run if and only if no listing
  drops the channel entered for a Call-ID while another that shares it stays (`TableRuns.CompleteThroughoutIff`).
- The first-row trim is exact at every cutoff if and only if the first row is the oldest
  (`CounterLaws.ShortcutIsExactIff`); once the clock was set back it need not be (`CounterLaws.ClockSetBack`).
- Counts are said to survive restarts. An address's do if and only if each of its events that fell between a save and a
  restart has left the window (`CounterLaws.CountsSurviveIff`).
- Alerts stay apart across restarts if and only if no restart comes between a check and the next save
  (`AlertLaws.AlertsAreApartIff`).
- A lock timeout is said to undercount one call. For a number with one timed-out write it does so, or less, if and only
  if the lock's holder wrote after it what it had read before, or the timed-out pass overlapped at most one pick
  (`LossLaws.UndercountsOneIff`); otherwise it loses all it overlapped, which can be any number up to the cap
  (`LossLaws.LoneTimeoutLoses`, `LostCounts.OneTimeoutLosesAny`). `LossLaws.ChainLoses` says what any number of
  timeouts lose. A pass times out if and only if another channel held the number's lock at each of its four tries
  (`TimeoutLaws.UnlockedIffGaveUp`), and while none does the counter is exact (`TimeoutLaws.ExactUnlessGivenUp`). It
  never overstates (`DidProtocol.StoredWithinBounds`).
- A transfer leg asserts the customer's number as it was sent, and only its digits are checked: what goes out is a NANP
  number if and only if nothing but digits came in (`DialplanLaws.TransferNumberIsNanpIff`). A good number with a plus
  in front is dialled, plus and all (`DialplanLaws.APlusInPractice`).

## Assumptions

- Scores, times, rates and headroom are reals; rounding of floats is not modelled.
- Sound-alike keys and comparison, stopwords and common words are parameters of the corpus (`Corpus.Lexicon`).
- TRYLOCK, UNLOCK, database access and the writing of the counters' state file are atomic. `render.sh` supplies
  per-index members that agree with the pool's count, a positive `TRANSFER_MIN_CALLS`, at least one gateway and the
  clamped attempt cap.
- Group counts, portal rows, learned rows, the clock, gateway load, Dial outcomes, CLI output and the pieces a pipe
  hands out are inputs, unconstrained.

## Model

| member | source | states |
|---|---|---|
| Levenshtein.Levenshtein | phraseguard/matcher.py:104-151 | The banded, early-abandoning distance is min(true edit distance, cap + 1), for all strings and every cap |
| Levenshtein.BandedDistance | phraseguard/matcher.py:125-151 | The two swapped row buffers, filled only inside the band and abandoned early, give the same answer as the full table |
| Levenshtein.FillBand | phraseguard/matcher.py:129-144 | One row is exact up to the cap inside the band, whatever stale cells the reused buffer holds |
| Levenshtein.AbandonIsSound | phraseguard/matcher.py:145-146 | A band minimum over the cap means the whole distance is, although the minimum never looks at column 0 |
| EditDistance.ColumnOne | phraseguard/matcher.py:130-146 | In every row some cell of column 1 is no dearer than column 0, which is what lets the row minimum skip column 0 |
| EditDistance.DistanceIsCheapestRewrite | phraseguard/matcher.py:104-109 | The recursive distance is the cost of the cheapest script of keeps, replacements, insertions and deletions from one string to the other, and no script is cheaper |
| EditDistance.DistanceZero | phraseguard/matcher.py:114-115 | The equality shortcut: the distance is 0 for equal strings and for no others |
| Normalize.TokensJoin | phraseguard/matcher.py:85-98 | Normalising two texts with a space between is normalising each: no marker, apostrophe or word reaches across the gap |
| Normalize.CutsAreInvisible | phraseguard/matcher.py:85-98 | However speech is cut between words, the accumulated tokens are those of the whole transcript |
| Normalize.TokensAreWords | phraseguard/matcher.py:81-98 | Every token is nonempty and made of lower-case letters and digits only |
| Normalize.NormalizingTwiceIsOnce | phraseguard/matcher.py:59-98 | Number folding runs one way only: tokens said again give the same tokens, so corpus and transcript meet |
| SpokenText.AWordIsAToken | phraseguard/matcher.py:59-98 | Letters and digits in a row are one token, in lower case, or the numeral if they spell a number |
| SpokenText.NumbersByPlace | phraseguard/matcher.py:67-75 | The number words are those of 0 to 20, the tens, hundred, thousand and oh, each folded to its own numeral, and no others |
| SpokenText.ApostrophesVanish | phraseguard/matcher.py:81-98 | Any of three apostrophes leaves no trace, so a contraction is one token |
| SpokenText.OthersPart | phraseguard/matcher.py:82-98 | Any other character that is neither letter nor digit parts what stands before it from what stands behind |
| SpokenText.MarkersPart | phraseguard/matcher.py:77-95 | The unknown-audio marker, in either case, is a gap and never a word |
| Corpus.BuildIndex | phraseguard/matcher.py:371-411 | The index files a phrase under a key exactly when one of its trigger tokens has that key by spelling or by sound |
| Corpus.EveryPhraseCanWake | phraseguard/matcher.py:371-411 | No phrase of a loadable corpus is dead: some token of its own text wakes it |
| Corpus.MaxSpanCovers | phraseguard/matcher.py:320-324 | The corpus's widest span is at least one token wider than each phrase |
| WakeLaws.TriggersAre | phraseguard/matcher.py:371-411 | A phrase's triggers are its tokens that are no stopwords and stand in at most twelve phrases, or failing any the rarest of its tokens, alphabetically first among equals |
| WakeLaws.WhoIsWoken | phraseguard/matcher.py:548-581 | A phrase is woken if and only if some token no further back than the widest span is one of its triggers, or sounds like one whose sound is not its spelling |
| WakeLaws.MaxSpanIs | phraseguard/matcher.py:320-324 | The widest span is the longest phrase and one token more, and at least four |
| Matcher.ScoreSpan | phraseguard/matcher.py:498-529 | The scoring branches compute the score of the span: exact, phonetic, all common words, edited, or no match |
| Matcher.ScoreAtMostOne | phraseguard/matcher.py:498-529 | No span scores over 1; a phrase's own text scores 1; for a phrase that is not a brand nothing else does |
| Spans.UpToWidthTops | phraseguard/matcher.py:583-606 | For any scoring of spans, the scan over widths and starts ends with a candidate no span of those widths ending after `since` beats |
| Matcher.FindBest | phraseguard/matcher.py:583-606 | The two scan loops compute the best span |
| Matcher.BestSpanIsBest | phraseguard/matcher.py:583-606 | The chosen span is scored, has the highest score of all scored spans, and is the first of that score in scan order; none is chosen only if none matches |
| Matching.Wake | phraseguard/matcher.py:548-581 | The phrases woken are exactly those with a key on a token inside the scanned region |
| Matching.Veto | phraseguard/matcher.py:630-650 | A candidate overlapping an exclusion is dropped, and exclusions stay only when asked for |
| Matching.Suppress | phraseguard/matcher.py:652-668 | The greedy overlap filter keeps what does not clash with anything kept before it |
| Matching.Run | phraseguard/matcher.py:531-668 | One incremental call returns the veto, ranking, suppression and ordering of the candidates of all woken phrases |
| MatchReports.ScoreMeans | phraseguard/matcher.py:498-529 | A score is 1 for the text itself, 1 for a brand's sound in words not all ordinary, and otherwise 1 less the share of the phrase edited, for at least one edit and no more than allowed; an edited brand never passes its review line by more than a billionth |
| MatchReports.NoMatchMeans | phraseguard/matcher.py:498-529 | A span matches nothing exactly when it is neither the text, nor its sound, nor within the edits allowed |
| MatchReports.TagIff | phraseguard/matcher.py:606-629 | A score is reported exactly when it reaches the phrase's review line and, but for Tier A, its kill line; pairs have lines of their own |
| MatchReports.ReportsAreHonest | phraseguard/matcher.py:531-668 | Of every candidate and every match returned: its words are in the window and end in new ones, its width is one its anchor allows, its score is what those words score, and its tag is A exactly for Tier A at or over the kill line, A-near for Tier A below it, and the tier's own otherwise |
| MatchReports.NothingBetterIsMissed | phraseguard/matcher.py:583-629 | A woken phrase with a span of its widths over its line is reported with a score at least as high |
| MatchReports.WhatIsReturned | phraseguard/matcher.py:630-668 | Said in the words heard: nothing returned shares a token with an exclusion, no two of a category share one, and a candidate left out shares one with an exclusion or with a returned one of its category that scores higher, is longer, is earlier, or has the lower row; the rest come in order of start, then score |
| MatchLaws.SelectionLaws | phraseguard/matcher.py:630-668 | Nothing returned is or overlaps an exclusion; no two returned of one category overlap; a vetoless candidate is missing only because a preferred one of its category overlapping it is there; output is in order of start |
| MatchLaws.OccurrenceWakes | phraseguard/matcher.py:548-581 | An exact occurrence completed by new tokens wakes its phrase |
| MatchLaws.AlwaysHeardIff | phraseguard/matcher.py:498-606 | A phrase has a score-1 candidate wherever it is said, in any window and however much of it was scanned before, if and only if it is no brand longer than the brand span, or one of the tails that are scored is no ordinary speech and sounds like the whole |
| MatchLaws.ExactOccurrenceReturned | phraseguard/matcher.py:531-668 | In any loadable corpus an exact occurrence of such a phrase is a score-1 candidate at its own tier, and is returned unless it overlaps an exclusion or a returned match of its category scoring 1 and at least as long |
| MatchLaws.OccurrenceLeavesTraceIff | phraseguard/matcher.py:531-629 | An occurrence of a phrase leaves a candidate of it, at whatever tier, if and only if some span that is scored for it reaches its report line |
| MatchLaws.ALongBrandMissed | phraseguard/matcher.py:583-606 | Under default thresholds and a brand span of three, a four-token brand is said word for word and nothing is returned, wherever no two texts sound alike |
| Incremental.ScoredAtMostOnce | phraseguard/matcher.py:548-606 | No span is scored for a phrase in two calls |
| Incremental.EveryTriggerSpanScoredOnce | phraseguard/matcher.py:548-606 | However the speech is cut, a span holding a trigger is scored in exactly one call, on the same words, unless its start was evicted first |
| Incremental.CutsDoNotMatter | phraseguard/matcher.py:548-606 | Without eviction the scores attained by trigger spans are the same for any two ways of cutting the stream |
| Incremental.OccurrenceSeenWhenComplete | phraseguard/matcher.py:548-606 | An occurrence still in the window is whole for the matcher in the call that brings its last token |
| Incremental.ScanIsCompleteIff | phraseguard/matcher.py:320-324 | Every trigger span of every feed is scored if and only if the brand span is at most the corpus's widest span plus one |
| Incremental.WideBrandSpanMisses | phraseguard/matcher.py:320-324 | With a wider brand span, a trigger at the front of a span has left the scan when the span completes |
| CallWindows.BisectLeft | phraseguard/matcher.py:746-749 | The loop computes the bisection point of any times, sorted or not |
| CallWindows.BisectionParts | phraseguard/matcher.py:746-749 | Over times in order the bisection point parts what is older than the cutoff from what is not |
| CallWindows.CallWindow.Add | phraseguard/matcher.py:698-712 | The new window, and the index of the first new token still in it: only this call's evictions shift it |
| CallWindows.CallWindow.Accept | phraseguard/matcher.py:714-744 | A report is new exactly when it overlaps none of the remembered spans of its phrase, and is then remembered in absolute coordinates |
| CallWindows.CallWindow.Evict | phraseguard/matcher.py:746-776 | Old or surplus tokens, spans behind the window, stale hits and signals without a live hit all go together |
| CallWindows.CallWindow.Record | phraseguard/matcher.py:783-786 | A match is appended to the hits |
| WindowLaws.WindowIsTheLastSeconds | phraseguard/matcher.py:698-766 | Over any run with times in order, once words are heard at `now` the window holds exactly the tokens that arrived at or after `now` less its seconds and are among the newest up to its cap |
| WindowLaws.HitsAreTheLastSeconds | phraseguard/matcher.py:767-776 | ...and its hits are exactly those noted in the call at or after `now` less its seconds, in order |
| WindowLaws.OnlyNewWordsAreAccepted | phraseguard/matcher.py:714-744 | Over any run a report is accepted exactly if none of its words is in a span accepted for its phrase before, in the window still or long gone |
| CallRuns.WindowIsTheTail | phraseguard/matcher.py:698-776 | Over a whole call the window is the suffix of everything heard that starts at `dropped` |
| CallRuns.NothingCountedTwice | phraseguard/matcher.py:714-766 | All spans ever accepted for a phrase are pairwise disjoint in absolute coordinates, even after the window forgot them |
| WindowLaws.NoWordTwice | phraseguard/matcher.py:714-766 | No word of a call is in two spans accepted for one phrase |
| CallRuns.NewMeansNeverReported | phraseguard/matcher.py:714-766 | Checking the remembered spans is as good as checking every span ever accepted |
| CallRuns.EventsArePaidFor | phraseguard/matcher.py:767-867 | There are never more B events than live periods of signals, and only live signals stay fired |
| ChargeLaws.OnlyLapsedSignalsAreForgiven | phraseguard/matcher.py:767-776 | A fired signal becomes chargeable again only in an eviction after which no live hit carries it |
| ChargeLaws.AnEventCharges | phraseguard/matcher.py:851-867 | Every B event charges at least one signal not charged before |
| ChargeLaws.OneChargePerLife | phraseguard/matcher.py:767-867 | Over any run of a call each signal is charged at most as often as it came to life in the window |
| ChargeLaws.RechargeNeedsALapse | phraseguard/matcher.py:767-867 | Between two charges of one signal lies an eviction at which no live hit carried it |
| CallRuns.ACallIsAFeed | phraseguard/matcher.py:698-712 | A run of the window, whatever was evicted, feeds the matcher one unbroken history |
| CallRuns.WindowIsItsView | phraseguard/matcher.py:698-712 | After words are heard the window's tokens and the returned index are the ones that feed prescribes |
| Scorer.Score | phraseguard/matcher.py:831-849 | The score is distinct contributing signals less the capped suppression, never negative; both sets come back with it |
| Scorer.ShouldFire | phraseguard/matcher.py:851-867 | It fires exactly when the threshold is reached with a signal not yet fired, and then all contributing signals are fired; score and both sets come back |
| Scorer.FiresOnce | phraseguard/matcher.py:851-867 | A window that has just fired does not fire again on the same hits |
| Scorer.RepeatsDoNotCount | phraseguard/matcher.py:794-800 | Categories are counted, not phrases: a hit on signals already heard leaves the score alone |
| Scorer.ASignalCountsOnce | phraseguard/matcher.py:794-800 | A hit that is no disclaimer raises the score by at most one and never lowers it |
| Scorer.DisclaimersOnlyLower | phraseguard/matcher.py:801-807 | With no negative weight, a Tier C hit never raises the score |
| Scorer.AnEventNeedsDistinctSignals | phraseguard/matcher.py:789-800 | With no negative weight, an event has at least `threshold` distinct signals in the window, one of them not fired |
| ScorerLaws.ContributingAre | phraseguard/matcher.py:789-800 | What contributes are the categories of B hits, and the near-miss signal if there is a near miss |
| ScorerLaws.SuppressionIs | phraseguard/matcher.py:801-849 | The government disclaimer takes off its own weight and every other suppressing category the common one |
| ScorerLaws.FiresIff | phraseguard/matcher.py:851-867 | It fires exactly when what is left of the distinct signals reaches the threshold and one of them has not fired |
| ScorerLaws.TwoSignalsFire | phraseguard/matcher.py:831-867 | At threshold two, with no disclaimer heard and nothing fired: an event if and only if the window holds two B categories, or one and a near miss |
| ScorerLaws.ADisclaimerTakesTwo | phraseguard/matcher.py:801-867 | With the government disclaimer read and nothing fired, at the shipped weights, three signals are no event and four are |
| DidRing.EmptyIffAllCapped | asterisk/extensions.conf.tpl:822-868 | A walk comes back empty exactly when every member is at its cap, and otherwise with a member under it |
| DidRing.RingReaches | asterisk/extensions.conf.tpl:826-836 | Before giving up, a walk reaches every index of the ring |
| DidRing.RingDistinct | asterisk/extensions.conf.tpl:826-836 | A walk reaches no index twice |
| DidRing.FreshDay | asterisk/extensions.conf.tpl:816-868 | On a fresh day k picks from n distinct numbers succeed exactly min(k, n * cap) times and counts differ by at most one, from any rotor |
| PoolLoads.PickIsTheFirst | asterisk/extensions.conf.tpl:816-868 | A walk picks the first number from the rotor on that is under its cap |
| DidProtocol.RunKeepsInv | asterisk/extensions.conf.tpl:807-868 | In every interleaving counters are what the log of writes says, locks have the owners their frames claim, and reads under a lock are not overtaken by locked writes |
| DidProtocol.MutualExclusion | asterisk/extensions.conf.tpl:838-852 | Two channels never hold the same number's lock |
| DidProtocol.StoredWithinBounds | asterisk/extensions.conf.tpl:852-868 | Timeouts or not, a stored counter is at most the cap and at most the picks that returned the number |
| DidProtocol.ExactWithoutTimeouts | asterisk/extensions.conf.tpl:838-868 | Without timeouts on a number, its counter equals the picks and the counts handed back are 1, 2, ... without repeats |
| DidProtocol.LossNeedsATimeout | asterisk/extensions.conf.tpl:849-857 | A write loses increments only if another pass wrote the key between its read and itself and one of the two had timed out |
| TimeoutLaws.UnlockedIffGaveUp | asterisk/extensions.conf.tpl:838-852 | In every interleaving a channel reads or counts a number without its lock if and only if the schedule holds four turns of it at TRYLOCK for that number, since it came to it, at each of which another channel held the lock |
| TimeoutLaws.UnlockedWritesGaveUp | asterisk/extensions.conf.tpl:838-860 | Every write without the lock was by a channel that had been refused four times so |
| TimeoutLaws.ExactUnlessGivenUp | asterisk/extensions.conf.tpl:807-868 | If no channel was refused four times running for a number, its counter is exactly its picks, counted 1, 2, ... without repeats |
| TimeoutLaws.CleanUnlessGivenUp | asterisk/extensions.conf.tpl:838-852 | If no channel was for any number, no write of the run goes without its lock |
| LossLaws.WriteLosesWhatItOverlaps | asterisk/extensions.conf.tpl:846-857 | Timeouts or not, a write raises what the counter misses by exactly what the counter gained between that write's read and itself |
| LossLaws.FirstTimeoutLosesItsOverlap | asterisk/extensions.conf.tpl:846-857 | After locked writes only, one more write, locked or not, leaves the counter short by exactly the picks of that number made between its read and itself |
| LossLaws.LoneTimeoutLoses | asterisk/extensions.conf.tpl:799-806 | Over a whole day with one timed-out write of a number, the counter ends short by one if a lock holder that had read before it wrote after it, and otherwise by every pick it overlapped |
| LossLaws.UndercountsOneIff | asterisk/extensions.conf.tpl:799-806 | One timed-out write undercounts at most one call if and only if the holder wrote over it or it overlapped at most one pick; the shortfall is never more than the cap |
| LossLaws.CounterAfterLoneTimeout | asterisk/extensions.conf.tpl:799-868 | In every interleaving with one timed-out write of a number, its counter is its picks less that loss |
| LossLaws.ChainLoses | asterisk/extensions.conf.tpl:799-857 | With any number of timeouts: a counter is the number of writes it descends from, it is short by the picks each of those overlapped between its read and itself, and exact if and only if none overlapped any |
| LossLaws.CounterInEveryInterleaving | asterisk/extensions.conf.tpl:799-868 | In every interleaving, timeouts and all, a counter is its number's picks less those |
| LostCounts.OneTimeoutLosesAny | asterisk/extensions.conf.tpl:846-857 | For every n from 1 to the cap a reachable state in which n + 1 picks returned a number, one of them timed out, and its counter says one: n counts lost |
| DidProtocol.AtMostOneLock | asterisk/extensions.conf.tpl:838-868 | A channel holds at most one number's lock, and none once it has returned |
| DidProtocol.EachChargedOnce | asterisk/extensions.conf.tpl:852-860 | A pick that returns a number raised that counter once and no other; one that returns nothing raised none |
| DidProtocol.EmptyMeansAllCapped | asterisk/extensions.conf.tpl:861-879 | Timeouts or not, an empty result means every member of the pool was picked as often as the cap allows; without timeouts every counter stands at the cap |
| DidProtocol.PickTerminates | asterisk/extensions.conf.tpl:807-879 | A channel given 12 turns per pool member and three more has returned, whatever the others do |
| DidProtocol.CountersCountReturns | asterisk/extensions.conf.tpl:807-879 | With no pick under way, counters compare with the channels that hold the number: at most, and exactly without timeouts |
| DidRefinement.AlonePicksFromRing | asterisk/extensions.conf.tpl:807-879 | A channel scheduled alone does what the sequential ring walk says: its result, one counter raised or none, its pool's rotor one step on, every lock and every other channel as before |
| SequentialPicks.OneAfterAnother | asterisk/extensions.conf.tpl:807-879 | Channels that keep their turns until they return, one after another and for however long, leave the counters, rotor and successes of the sequential account of a day |
| SequentialPicks.ASequentialDay | asterisk/extensions.conf.tpl:816-868 | So from any rotor they are served the lesser of their number and the pool's capacity |
| ProtocolDay.EveryCallIsAnswered | asterisk/extensions.conf.tpl:418-430 | Under every schedule in which calls ask overflow only after their own pool came back empty, and have the turns they need, every call of the day is answered |
| ProtocolDay.EveryInterleavingIsProjected | tools/analyze-did-capacity.py:590-613 | However the picks of a day's concurrent calls interleave: with no number shared at most the projected calls are left without one, timeouts or not; with no timeout at least the projected calls are, whatever is shared. So exactly the projection when neither happens |
| ProtocolDay.ProjectedIffNoPoolOverdrawn | tools/analyze-did-capacity.py:590-613 | In an unshared fleet, timeouts and all, exactly the projected calls are left without a number if and only if none is projected or no pool gave out more than its numbers at the cap |
| OverdrawnDay.EveryCallServed | asterisk/extensions.conf.tpl:799-806 | For every cap an unshared fleet, a day with one refusal projected and an interleaving with one timeout in which every call gets a number |
| ProtocolDay.ReallocationHelpsEveryInterleaving | tools/analyze-did-capacity.py:616-627 | End to end with concurrent calls: any interleaving of a measured day on the fleet the executed plan leaves starves no more calls than any timeout-free one on the fleet before it, and none if overflow gave anything up |
| Dialplan.CheckDestination | asterisk/extensions.conf.tpl:205-238 | Refused as not NANP, refused as a blocked area, or accepted with the normalised number, each exactly when its condition holds |
| Dialplan.CheckPortal | asterisk/extensions.conf.tpl:252-264 | Absent or stale portal data allows; otherwise funds are looked at before calling hours |
| Dialplan.CheckCallerId | asterisk/extensions.conf.tpl:281-311 | The customer's caller ID is usable exactly when its digits are a NANP number other than the one dialled |
| Dialplan.DetectTransfer | asterisk/extensions.conf.tpl:334-391 | A transfer leg by toll-free area, operator's pin, or enough answered calls whose average is over the threshold, unless suppressed |
| Dialplan.Admit | asterisk/extensions.conf.tpl:199-346 | The checks are made in order and the first that fails names the refusal |
| Dialplan.Exchange.Acquire | asterisk/extensions.conf.tpl:838-852 | The lock is held exactly if the number is free at one of four tries, between which its holder may come or go |
| Dialplan.Exchange.Pick | asterisk/extensions.conf.tpl:807-879 | The loop with its locks charges the number the ring walk finds, and every lock is as before on every exit |
| Dialplan.Exchange.Choose | asterisk/extensions.conf.tpl:418-430 | The destination's own pool is tried before overflow |
| Dialplan.Exchange.Handle | asterisk/extensions.conf.tpl:180-460 | A whole call up to Dial: its result, rotors and counters, with every lock as before |
| CallChecks.EachRefusalMeans | asterisk/extensions.conf.tpl:199-346 | Each refusal, in the call's and the configuration's own fields: given exactly when its own test fails and all before it passed, and none when all passed |
| CallChecks.DialedFields | asterisk/extensions.conf.tpl:199-346 | Of every dialled call: eleven digits in the numbering plan where only that is allowed, no N11, no 976 and no listed area where those are blocked, no listed prefix, and with fresh portal data no blocked endpoint or address and no closed area |
| CallChecks.OwnNumberIff | asterisk/extensions.conf.tpl:334-391 | A dialled call asserts the customer's number if and only if it is usable, transfers are on, and the destination is toll-free, the operator says so, or the number has been answered often and long enough and the operator does not say no |
| PoolLoads.OwnPoolFirst | asterisk/extensions.conf.tpl:418-430 | A call is served from its own area while one of the area's numbers is under the cap, and otherwise from overflow |
| DialplanLaws.NoReasonIffAdmitted | asterisk/extensions.conf.tpl:199-346 | No check fails in order exactly when every check passes |
| DialplanLaws.DialedMeansChecked | asterisk/extensions.conf.tpl:199-460 | A call that reaches Dial passed every check, and asserts as both number and ANI either the customer's own number with nothing charged, or a well-formed number of ours charged exactly once |
| DialplanLaws.OnlyDigitsAreVetted | asterisk/extensions.conf.tpl:281-311 | Whether a caller ID is usable depends on its digits alone |
| DialplanLaws.TransferNumberIsNanpIff | asterisk/extensions.conf.tpl:292-397 | The number a transfer leg is dialled with is a NANP number if and only if the caller ID the customer sent was digits and nothing else |
| DialplanLaws.APlusGoesOut | asterisk/extensions.conf.tpl:292-397 | Whatever transfer leg is dialled with the customer's number would also be dialled with a plus before it, and would assert the plus |
| DialplanLaws.APlusInPractice | asterisk/extensions.conf.tpl:292-397 | For every toll-free destination and every other well-formed number, sending the number with a plus is such a leg |
| DialplanLaws.AdmittedIsDialedUnlessNoDid | asterisk/extensions.conf.tpl:418-442 | An admitted call that is refused is no pass-through, and either every number it could use is at its cap or the one chosen is malformed |
| DialplanLaws.CountersAreCharges | asterisk/extensions.conf.tpl:418-460 | Over a day every counter is the number of calls that charged it, within the cap |
| DialplanLaws.CountersAreDials | asterisk/extensions.conf.tpl:418-460 | For a well-formed number the counter is the number of calls dialled with it: at most the cap a day, transfer legs not counted |
| DialplanLaws.ADayIsPlaced | asterisk/extensions.conf.tpl:418-430 | A day of whole calls drives rotors and counters as placing the areas of its selecting calls does, refusal for refusal |
| DialplanLaws.StarvedCallsAreProjected | tools/analyze-did-capacity.py:590-613 | The calls refused for want of a number over a day of whole calls are exactly the planner's projection from their daily totals |
| Gateways.Walk | asterisk/extensions.conf.tpl:470-626 | The gateway loop terminates, and each look, skip, INVITE and ending is the one the rules prescribe |
| Gateways.Trunk.Route | asterisk/extensions.conf.tpl:470-475 | The shared rotor moves one step for each call and fixes where its ring starts |
| Gateways.InvitesAreBounded | asterisk/extensions.conf.tpl:555-624 | At most the attempt cap of INVITEs go out, and none after an answer, busy, no-answer or a phone that rang |
| GatewayLaws.LooksGoRound | asterisk/extensions.conf.tpl:470-505 | The looks go round the ring from the first gateway, one on each time, and are skips exactly where the gateway was over its grant |
| GatewayLaws.OnlyTrunkFaultsGoOn | asterisk/extensions.conf.tpl:555-624 | Another gateway is looked at only after congestion, or after unavailability that never rang and was no fast reject |
| GatewayLaws.EveryTrunkFaultGoesOn | asterisk/extensions.conf.tpl:555-624 | ...and after every such attempt one is, unless the attempts are used up |
| GatewayLaws.EverySkipGoesOn | asterisk/extensions.conf.tpl:496-505 | A skip goes on to another gateway unless the whole ring was skipped |
| GatewayLaws.EndingsMean | asterisk/extensions.conf.tpl:496-626 | How a call ended says what its looks were; it never skips or dials more than it may |
| Gateways.RouteIsDetermined | asterisk/extensions.conf.tpl:470-626 | Who is busy and what each attempt brings fix the walk: no two differ |
| Gateways.SameGatewayIffARound | asterisk/extensions.conf.tpl:472-505 | Two looks within a round of each other are at the same gateway exactly when they are a whole round apart |
| Gateways.NoSkipNoRedial | render.sh:380-381 | If a call's skips and the attempt cap together are no more than the gateways, it dials no gateway twice |
| Gateways.RedialFreeIff | asterisk/extensions.conf.tpl:496-505 | With two attempts or more and s below the number of gateways, no call with at most s skips dials a gateway twice if and only if s plus the attempts is no more than the gateways |
| Gateways.TheClampIsNeeded | render.sh:380-381 | The rendered attempt cap never redials without a skip; the configured one is as safe if and only if the clamp leaves it alone |
| Gateways.RedialNeedsASecondAttempt | asterisk/extensions.conf.tpl:496-505 | With skips, some call dials a gateway twice if and only if more than one attempt is allowed |
| Projection.SimulateRefusals | tools/analyze-did-capacity.py:597-613 | The loops over days and areas compute total refusals and total demand |
| Refusals.ProjectionIsExact | tools/analyze-did-capacity.py:590-613 | With no shared number, refusals of ring-then-overflow selection are the projection from daily totals, in any order of calls and from any rotors |
| WholePeriod.TheReportIsExact | tools/analyze-did-capacity.py:597-613 | On an unshared fleet the report's two totals over any days are the number of calls of all of them and the number refused, whatever order they came in and with rotors standing where the day before left them |
| Refusals.ProjectionIsAFloor | tools/analyze-did-capacity.py:590-613 | With shared numbers the projection is still a lower bound |
| Refusals.SharedNumberRefuses | tools/analyze-did-capacity.py:590-595 | If any number serves twice, there is a day projected without refusals that refuses calls |
| Refusals.ExactIffUnshared | tools/analyze-did-capacity.py:590-595 | The projection is exact for every day if and only if no number serves two pools or one pool twice |
| Refusals.DistinctNumbersBoundService | asterisk/extensions.conf.tpl:418-430 | No order of calls is served beyond distinct numbers times the cap |
| PoolLoads.AreaGoesRoundItsRing | asterisk/extensions.conf.tpl:418-430 | Whatever calls to other areas come between, in any order, an area's calls draw from its pool as if they were alone |
| PoolLoads.OverflowGoesRoundItsRing | asterisk/extensions.conf.tpl:418-430 | Overflow is asked by exactly the calls their own pool did not serve, and goes round its own ring |
| PoolLoads.EveryPoolIsEven | asterisk/extensions.conf.tpl:816-868 | Over a day of calls to any areas in any order and from any rotors, no two numbers of one unshared pool are ever more than one call apart |
| Planner.Match | tools/analyze-did-capacity.py:358-388 | The index walk over a copied donor list computes the greedy allotment |
| Planner.Cover | tools/analyze-did-capacity.py:371-382 | One area's turn draws from the donors in order what it wants or all there is |
| Planner.MeasureOverflowNeed | tools/analyze-did-capacity.py:303-328 | The loops compute what overflow must keep: the floor, or the worst day's spill |
| Planner.PlanReallocation | tools/analyze-did-capacity.py:331-355 | Two passes: overflow donates only what the first pass leaves idle |
| Planner.PostReallocPools | tools/analyze-did-capacity.py:616-627 | The loops compute every pool's size after the plan |
| Planner.DrawTakes | tools/analyze-did-capacity.py:371-382 | A draw takes the lesser of want and supply, only from what each source had, and never an empty share |
| Planner.AllotCovers | tools/analyze-did-capacity.py:358-388 | A plan moves the lesser of shortfall and surplus, moves plus purchases are each area's shortfall, and no source gives more than it has |
| Planner.MoreSurplusGivesMore | tools/analyze-did-capacity.py:345-355 | More surplus never gives any area less |
| PlanOrder.NeededIsLeast | tools/analyze-did-capacity.py:235-239 | The numbers needed are the fewest whose capacity carries the peak with its headroom |
| PlanOrder.RetainedIsLeast | tools/analyze-did-capacity.py:287-300 | A donor keeps the fewest that are at least two more than its need and at least a quarter more |
| PlanOrder.OverflowNeedIsLeast | tools/analyze-did-capacity.py:303-328 | Overflow is to keep the fewest that are its minimum or more and carry what spills on every measured day after the first pass |
| PlanOrder.NobodyOvertakes | tools/analyze-did-capacity.py:331-388 | No area is given a number while one earlier on the priority list, or as early with a larger shortfall, is left to buy |
| PlanOrder.LargerSurplusFirst | tools/analyze-did-capacity.py:331-388 | An area gives only once every area with a larger surplus has given all of it |
| PlanOrder.OverflowGivesLast | tools/analyze-did-capacity.py:331-388 | Overflow gives only once every area with a surplus has given all of it |
| PlanEffects.PlanCovers | tools/analyze-did-capacity.py:331-388 | The plan moves exactly the lesser of total shortfall and total surplus, and for every short area moved plus bought is the shortfall |
| PlanEffects.AreaAfterPlan | tools/analyze-did-capacity.py:287-300 | A donor keeps at least its retention; an area that is no donor does not shrink |
| PlanEffects.FleetConserved | tools/analyze-did-capacity.py:616-627 | Areas and overflow together hold as many numbers after the plan as before |
| PlanEffects.OverflowKeepsItsNeed | tools/analyze-did-capacity.py:303-355 | If overflow gives anything, it keeps what the spill after the first pass needs |
| PlanEffects.OverflowGivesOnlyWhatIsIdle | tools/analyze-did-capacity.py:345-355 | If overflow gives up even one number, nothing is projected refused on any measured day |
| PlanEffects.PlanNeverAddsRefusals | tools/analyze-did-capacity.py:331-388 | The plan adds no projected refusal on any measured day, for headroom of at least -20 percent |
| PlanEffects.TooLittleHeadroomAddsRefusals | tools/analyze-did-capacity.py:235-239 | For headroom strictly between -100 and -20 percent there is a report whose plan adds a refusal |
| PlanEffects.SafeHeadrooms | tools/analyze-did-capacity.py:235-388 | The plan never adds refusals if and only if headroom is at least -20 or at most -100 percent |
| Reallocate.RetentionsAgree | didctl.sh:811-813 | The shell's retention floor is the planner's |
| Reallocate.Reallocation.Take | didctl.sh:815-830 | The idlest numbers leave the donor, at most as many as wanted, and the rest stay in order |
| Reallocate.Reallocation.MovePair | didctl.sh:888-917 | One move: blocked by the guard, blocked for want of numbers, or carried out |
| Reallocate.Reallocation.Run | didctl.sh:878-919 | The loops carry out every pair of every row with something to move, in order |
| Reallocate.IdlestMove | didctl.sh:815-830 | No number taken is busier than one left behind |
| Reallocate.GuardHolds | didctl.sh:890-906 | No plan, however wrong, takes a pool below its floor |
| DonorLaws.NoPoolIsDrained | didctl.sh:890-906 | ...that floor being overflow's own minimum, and for an area the least number at least two more than its need and a quarter more, need nought if the plan has none |
| DonorLaws.CarriedOutIff | didctl.sh:888-917 | A move is carried out, all of it, if and only if its source has that many and keeps its floor; otherwise one more is counted as blocked and every pool holds the numbers it held |
| DonorLaws.IdlestGoFirst | didctl.sh:822-828 | Of a donor's numbers those handed over were used less than those kept, or as often and are lower as dialled |
| Reallocate.RunKeepsNumbers | didctl.sh:878-919 | No run creates or loses a number: each is held as often as before |
| Reallocate.AffordableRuns | didctl.sh:878-919 | A list of moves each source can spare trips no guard and moves exactly what it says |
| Capacity.PlanIsAffordable | didctl.sh:811-906 | The planner's rows, in any order, ask of no source more than the executor's guard allows |
| Capacity.ExecutionMatchesPlan | didctl.sh:878-919 | Executed on the same pools, nothing is blocked and every pool ends at the projected size |
| Capacity.ExecutionKeepsNumbers | didctl.sh:878-919 | Executing the plan keeps the set of numbers, each as often as before |
| Capacity.RefusalsAreProjected | tools/analyze-did-capacity.py:590-613 | A fleet's refusals on any accounted day are at most, and within the cap exactly, the projection from any sizes that agree with its pools |
| Capacity.ReallocationNeverRefusesMore | tools/analyze-did-capacity.py:616-627 | End to end: plan, execute, then any day's calls in any order are refused no more often than before, and never if overflow gave anything up |
| Pcap.Writer.Write | tools/testdata/make-phraseguard-pcap.py:103-106 | A record is appended: both times, both lengths, then the frame |
| Pcap.Pipe.ReadExact | phraseguard/tap.py:126-151 | Exactly the bytes asked for, however the pipe splits them, or nothing if the stream ends first |
| Pcap.ReadStream | phraseguard/tap.py:171-221 | The result depends only on the bytes, not on how the pipe hands them out |
| Pcap.FrameBack | phraseguard/tap.py:200-221 | Behind any of the three link headers, a written UDP packet gives back its addresses, ports and payload (section 3.1 of RFC 791, RFC 768) |
| Pcap.CaptureRoundTrip | phraseguard/tap.py:171-221 | Reading what the writer wrote gives the same datagrams in order, times cut to the microsecond |
| Pcap.StampedIs | tools/testdata/make-phraseguard-pcap.py:103-106 | Each datagram read back differs from the one written only in its time, and by less than a microsecond |
| Pcap.TruncationLosesTheTail | phraseguard/tap.py:192-198 | Cutting a capture anywhere loses only datagrams from its end |
| PcapOrders.EitherOrderIsRead | phraseguard/tap.py:171-221 | A capture of any frames in either byte order, on any of the three link types, is read frame by frame, each at its own time |
| PcapOrders.OthersAreRefused | phraseguard/tap.py:171-190 | What does not begin with a whole header and the magic number of either order is refused |
| PcapOrders.OtherFramesAreSkipped | phraseguard/tap.py:200-221 | A frame gives nothing if it is short, is not IPv4, is not UDP, or ends within its headers |
| PcapOrders.UdpFramesAreRead | phraseguard/tap.py:200-221 | Any other gives the datagram behind its IP header, whatever options that carries |
| RtpDemux.Demarshal | phraseguard/tap.py:518-560 | Header, version, RTCP, codec, source and extension tests leave exactly the audio payload |
| RtpDemux.RtpDemux.Feed | phraseguard/tap.py:497-608 | One datagram's effect on all streams, and the stream that comes back |
| RtpDemux.Hear | phraseguard/tap.py:570-607 | Attribution, voiced time, gate and ring of one packet |
| RtpDemux.RtpDemux.TakePcm | phraseguard/tap.py:455-459 | Everything buffered is handed off and forgotten |
| RtpDemux.RtpDemux.Sweep | phraseguard/tap.py:610-619 | At most every thirty seconds the idle streams go, counted as closed |
| RtpLaws.NoAudioUnaccountedFor | phraseguard/tap.py:455-607 | Bytes handed off, dropped and buffered are as many as decoded since the gate opened, the buffer is the newest of them and within the ring, and while nothing was dropped handed off and buffer together are the decoded audio itself |
| RtpLaws.GateIsTheThreshold | phraseguard/tap.py:579-591 | A stream's gate is open exactly when its voiced time has reached the threshold; before that nothing is decoded |
| RtpLaws.OpenStaysOpen | phraseguard/tap.py:497-607 | While a stream lives its gate does not close, its voiced time does not fall and its call does not change |
| RtpLaws.OnlyOpenStreamsComeBack | phraseguard/tap.py:497-608 | A packet is answered with its stream exactly when the gate is open |
| RtpLaws.NothingStale | phraseguard/tap.py:610-619 | After any packet no live stream is idle for the timeout and thirty seconds |
| RtpLaws.StreamsAreCounted | phraseguard/tap.py:557-619 | Streams created are streams closed and streams alive |
| RtpLaws.RtpBack | tools/testdata/make-phraseguard-pcap.py:92-94 | A written RTP packet gives back its audio and SSRC, unless the audio is empty (section 5.1 of RFC 3550) |
| RtpHeaders.PlainAudioComesBack | phraseguard/tap.py:518-560 | A customer's packet gives back its audio, codec and SSRC, whatever padding, marker and contributing sources its header has |
| RtpHeaders.ExtendedAudioComesBack | phraseguard/tap.py:518-560 | ...and so does one with an extension of any length (section 5.3.1 of RFC 3550) |
| RtpHeaders.NothingElseIsAudio | phraseguard/tap.py:518-560 | No audio comes of a stub, another version, control traffic, another codec or another source |
| RtpHeaders.HeaderAlone | phraseguard/tap.py:537-560 | Nor of a packet whose header leaves nothing behind it |
| RtpStreams.StreamsAreTheirPackets | phraseguard/tap.py:561-607 | In every run each live stream is what its own packets since it was opened make of it: voiced time is the length of the loud ones, and what was decoded are those from the one that opened the gate on |
| RtpLives.AliveIff | phraseguard/tap.py:497-619 | In every run with packets in order of time a stream is alive if and only if it was heard and, at the last sweep, had not been silent for longer than the idle time; it belongs to the first call the tracker named for it since it was opened, at the packet's destination or failing that its source |
| Channels.ChannelTable.Refresh | phraseguard/actuator.py:263-309 | Within the time to live nothing changes; otherwise the listing's channels are entered and all others dropped with their entries |
| Channels.ChannelTable.Probe | phraseguard/actuator.py:311-360 | A channel's Call-ID is read once; silence is no answer; four misses write it off |
| Channels.ChannelTable.ProbeAll | phraseguard/actuator.py:362-376 | Unprobed channels worth asking are probed in listing order up to the limit |
| Channels.ReadCallId | phraseguard/actuator.py:332-345 | The value is that of the first SBC_CALLID line after the variables heading, or nothing |
| ChannelTexts.ALineIsItsFields | phraseguard/actuator.py:269-303 | A listing line of fourteen fields or more with the prefix gives name, number dialled and age by place, and the endpoint before the name's last dash, whatever white space surrounds it |
| ChannelTexts.ALineWithoutADash | phraseguard/actuator.py:301-303 | Without a dash all that follows the prefix is the endpoint |
| ChannelTexts.OtherLinesAreSkipped | phraseguard/actuator.py:269-286 | A line with fewer fields or another prefix gives nothing, and no other line does |
| ChannelTexts.TheFirstAssignmentCounts | phraseguard/actuator.py:332-347 | A Call-ID is read if and only if it is what the first line to set SBC_CALLID gives, below the first heading of any case, and is not empty |
| ListingLaws.AListingSets | phraseguard/actuator.py:263-309 | After a due listing each channel it names has the fields of its last line and keeps what was learnt of it, all others are gone, and with them the Call-IDs entered for them and no more |
| ListingLaws.KnownChannelsFirst | phraseguard/actuator.py:287-309 | Channels known before come first in their old order, new ones follow in the listing's |
| ProbeLaws.WantedIsAsked | phraseguard/actuator.py:362-376 | In a round the unsettled channels of the customer's endpoints are asked, in order and up to the limit: silence changes nothing, a Call-ID settles one, and so does a fourth miss; those beyond the limit are left |
| ProbeLaws.StrangersAreNotAsked | phraseguard/actuator.py:366-371 | A channel of another endpoint is never asked, only settled when the round comes to it |
| ProbeLaws.AskedInAll | phraseguard/actuator.py:362-376 | A round asks as many as want asking, up to the limit |
| ProbeLaws.EntriesAreRead | phraseguard/actuator.py:348-350 | A round enters a Call-ID for the last channel asked that gave it, and leaves every other entry alone |
| ProbeLaws.FailuresAreCounted | phraseguard/actuator.py:351-359 | A round counts one failure for every channel asked whose fourth miss it was |
| ProbeLaws.WrittenOffFairly | phraseguard/actuator.py:263-376 | In any run a channel's endpoint is the one in its name, and one not asked again carries a Call-ID, or answered four times without one, or belongs to no endpoint of the customer's |
| TableRuns.EveryRunIsFaithful | phraseguard/actuator.py:263-376 | After any run on any CLI text every entry names a channel of the latest listing carrying that Call-ID |
| TableRuns.EveryIdWasRead | phraseguard/actuator.py:263-360 | After any run every Call-ID a channel carries was read out of the CLI's own output for that channel, and the channel has been listed with it ever since |
| TableRuns.ProbesAreBounded | phraseguard/actuator.py:362-376 | A limited pass asks no more than the limit |
| TableRuns.CompleteUnlessTwins | phraseguard/actuator.py:304-308 | Dropping channels loses a Call-ID exactly when two channels share it and the one entered goes while the other stays |
| TableRuns.RunStaysComplete | phraseguard/actuator.py:263-376 | As long as no listing of a run does that, every channel known to carry a Call-ID is found by it |
| TableRuns.CompleteThroughoutIff | phraseguard/actuator.py:263-376 | A run finds every channel it knows at every point, also between the listing and the probes of one pass, if and only if no listing of it loses a twin |
| TableRuns.LostStaysLost | phraseguard/actuator.py:311-376 | A Call-ID lost that way stays lost, however often the rest are probed |
| TwinChannels.AListedChannelIsLost | phraseguard/actuator.py:304-308 | For any two channels and any Call-ID, a run from the CLI's own text after which the first is listed, known by that Call-ID, and not found by it |
| Resolver.Resolve | phraseguard/actuator.py:413-471 | Exact if the Call-ID is known after at most one bounded probe; else a miss, a unique guess, or ambiguous |
| Resolver.ExactIsTheCall | phraseguard/actuator.py:419-432 | An exact answer is a listed channel with the call's own Call-ID |
| Resolver.AGuessIsUnique | phraseguard/actuator.py:437-471 | A guess is the one listed channel that fits endpoint, number and age |
| Resolver.TwoFitsAreAmbiguous | phraseguard/actuator.py:437-471 | With two channels that fit, the answer is ambiguous |
| ResolverLaws.WithoutAnEntry | phraseguard/actuator.py:432-468 | With no entry a channel is guessed if and only if guessing is allowed and it is the only one of the call's endpoint, number (with or without leading ones) and age within the tolerance; ambiguous if and only if two are; and else a miss |
| ResolverLaws.KnownCallsAreFound | phraseguard/actuator.py:413-432 | In a run that loses no twin, a call whose Call-ID a listed channel is known to carry resolves exactly, to a channel carrying it, whatever else looks like it |
| ResolverLaws.OnlyDigitsCount | phraseguard/actuator.py:92-93 | Of a number dialled only its digits count, whatever stands between them |
| ResolverLaws.SentIff | phraseguard/actuator.py:492-513 | A hangup is sent if and only if enforcement is on, a channel was found or guessed and the command is short enough, and it names that channel |
| Resolver.Hangup.Execute | phraseguard/actuator.py:492-513 | At most one command is sent, only when enforcing, resolved and under the CLI's length limit |
| Resolver.HangupsHitTheCall | phraseguard/actuator.py:413-513 | Without the heuristic every hangup sent names a channel of the latest listing for which the CLI printed the call's own Call-ID since the channel was last entered |
| Resolver.ConsultedByRun | phraseguard/actuator.py:413-432 | What one resolution does to the table is a run of it: a listing, and a round of at most 32 probes if the Call-ID is not known by then |
| Resolver.Act | phraseguard/actuator.py:413-513 | Resolve and hang up keep the table faithful, and send nothing but that command |
| Counters.CustomerCounters.Add | phraseguard/record.py:280-285 | An event is appended for its address and that address trimmed |
| Counters.CustomerCounters.Trim | phraseguard/record.py:287-294 | The shortcut leaves the rows alone while the first is inside the window |
| Counters.CustomerCounters.Snapshot | phraseguard/record.py:296-310 | Every address is trimmed; its events are counted by kind and its two rates per thousand calls given |
| CounterLaws.SaveThenRestart | phraseguard/record.py:249-277 | After any history in order, saving and coming back from the file changes what is shown for no address, nor when any was last alerted on |
| Counters.CustomerCounters.CheckAlerts | phraseguard/record.py:312-350 | Exactly the addresses over a rate and not alerted on lately are alerted on, and noted |
| CounterRates.LineMeans | phraseguard/record.py:296-310 | An address's line counts the events of each kind in the window by themselves, and rates kills and B events per thousand calls, at nought without calls |
| CounterRates.AlertedIff | phraseguard/record.py:312-350 | An address is alerted on if and only if it has events in the book and enough calls in the window, its kills or its B events are at their rate or over, and it was not alerted on within the interval |
| CounterRates.AlertsAreNoted | phraseguard/record.py:328-345 | A check notes its time for the addresses it alerts on and for no others |
| CounterRates.AddedWhere | phraseguard/record.py:280-285 | An event without an address is not counted; any other goes to the end of its own address's rows and to no others |
| CounterLaws.ShortcutIsExactIff | phraseguard/record.py:287-294 | The shortcut keeps exactly the window at every cutoff if and only if the first row is the oldest |
| CounterLaws.CountsAreExact | phraseguard/record.py:249-310 | With nondecreasing times, the line shown for an address is that of the rolling window of everything added and not lost by a restart, across trims, snapshots, saves and restarts from the file |
| CounterLaws.RowsSurviveIff | phraseguard/record.py:249-310 | An address is shown with the events of everything ever added for it in the window if and only if each of its events that fell between a save and a restart has left the window |
| CounterLaws.CountsSurviveIff | phraseguard/record.py:249-310 | So is it shown with their counts, on exactly the same condition |
| AlertLaws.AlertsAreApart | phraseguard/record.py:328-333 | As long as no restart comes right after an unsaved check, alerts on one address are at least the interval apart, even if the clock is set back |
| AlertLaws.AlertsAreApartIff | phraseguard/record.py:249-333 | A pattern of checks, saves and restarts keeps alerts apart, for every configuration with a positive interval and whatever is added in between and whenever, if and only if none of its restarts comes right after a check |
| AlertLaws.AForgottenAlertRepeats | phraseguard/record.py:249-333 | After any history in order: save, check, restart, check. Every address with events in the window is alerted on by both checks or by neither |
| CounterLaws.ClockSetBack | phraseguard/record.py:287-294 | After the clock is set back the shortcut can keep an event the window has passed |

## Left out

- Loading: CSV parsing, language filter and sanity checks of `Corpus.load`, and reload during a call; one corpus per run. `normalize` is modelled for ASCII case only.
- `phraseguard/metaphone.py`, `phraseguard/asr.py`, the G.711 tables and RMS: the two tables are parameters of `RtpDemux.Config`.
- Log lines, CDR fields, hangup causes, JSONL, syslog, statistics that only count log lines, and `context`.
- The transfer-learning hangup handler: it reads before it locks and writes whatever the lock says; `Dialplan.Learned` is an input.
- The CPS and concurrency groups: their counts are inputs of `Dialplan.Invite`.
- `SipTracker`: what it knows of addresses and calls is the parameter `RtpDemux.Tracker`.
- The `stop` callback and select timeouts of `_read_exact`; dotted-decimal text of addresses, which are four bytes here.
- Retirement of incumbents, plan parsing, backup and the file rewrite of `didctl.sh reallocate`.
- RtpDemux.RtpDemux.Feed: streams are values in the table, not shared objects, so a stream drained after it expired is not modelled.
- TableRuns.Run: a channel is a value in the table; a listing is read line by line but its durations go through a parameter that gives nought for what is no number.
- Dialplan.Exchange.Pick: other channels show only in whether a number's lock is free at each try; what their steps do to counters and rotors in between is `DidProtocol`'s.
- Gateways.Walk: GROUP(gwcps) counting is an input, so what several calls do to one gateway's CPS is not modelled.
- `tools/fractel-order.py`, `tools/build-blocklist.py`, `tools/capture-parse.py` and the shell plumbing.
