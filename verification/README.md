# Verification models of MOSAIC's probes, price seed and proof runners

Dafny models of four parts of the repository, with proofs of what they are for. `dafny verify dfyconfig.toml` checks
everything. Integers are unbounded unless a width is written out, days are numbers, and dollars are real numbers.

- **The membership store** (`scripts/cost_center_access_probe.py`). `Members`, `Records`, `Base64`, `Numerals` and
  `NamedValues` are the hashed buckets and the strict text codec. `Projections` reads a store, `Updates` writes one.
  `Commits` says what a store publishes. `Runs` is the state machine of a writer that lands one write at a time, may
  abandon a plan anywhere and plans again from what is stored, and of readers that read the manifest and the shard at
  different moments; `Reordering` and `Histories` are about writes that become visible in any order, and `Abandoned`
  says exactly when that is safe. `Feasibility` says exactly when a projection or an update succeeds, which is the
  premise of the theorems about runs. `Policy` is the one-pass algorithm that the policy fragment encodes.
  `StoredForm` and `Masks` spell the stored form out, apart from the functions that write it.
- **The price refresh** (`scripts/price_seed.py`). `Indexing`, `Prices` and `Grouping` are the API's rows, what they
  date and how a rebuilt line is grouped. `Refresh` specifies a refresh as a function of states; `Refreshing` has the
  class that does it in place, and reaches that state. `Coverage`, `Pieces`, `Idempotence` and `Repeated` prove that
  no priced day is lost, when pieces end exactly where their replacements begin, and that refreshing again changes
  nothing; `Lifetimes` and `SortedLists` lift this to any number of refreshes; `CarriedNames` says what carried prices
  are called.
- **The bounded model runs** (`e2e/src`). `ModelSpend` is the allowance and its callers in any interleaving,
  `ModelConfig` rounds to cents, `PooledTokens`, `BudgetProof` and `Notices` are the proofs that run on top. Replies,
  views and the success of writes come from functions of the place in the run, so every proof is for every environment.
- **The MCP checks** (`scripts/verify_mcp_access.py`, `e2e/src/plan-scope.ts`). `McpSession` and `PoolQuota` are a
  session and the pooled-quota proof, against a gateway and server that may answer anything given all the requests so
  far. `EventStream` and `Mentions` are loops proved against declarative definitions.

`Wrappers` holds `Option` and `Result`, and `Names`, `Identifiers` the ordering of names and the search for IDs.

Three findings, each with an input that shows it.

- Where an abandoned update left a staged shard, a later update's manifest seen before its own shard shows the abandoned
  decision, which can be neither the old one nor the new one (`Abandoned.AbandonedExample`). Reordered visibility is safe
  exactly when what lies beneath each bucket that changes is harmless (`Abandoned.ReorderedExactly`); no history of
  completed updates can reach a store where it is not (`Histories.HistoryReordered`).
- A piece of an old price can overlap its replacement: a later old price at the replacement's amounts takes the
  replacement back to before the piece ends (`Pieces.OvertakenExample`). `Pieces.ExactEnds` says exactly when. It takes
  an old list in which a regionless price comes after a regional one of its line, or after another regionless one. A
  list in the order of its IDs, as refreshes write it, has neither, and in a history of such lists every piece ends
  exactly (`SortedLists.HistoryEndsExactly`).
- Refreshing twice can change prices when a rebuilt line has two regionless prices (`Repeated.TwiceExample`), and changes
  none when it has at most one (`Repeated.RefreshTwice`), as every line built from the API has
  (`Grouping.GroupedIsRebuilt`). The exact ends are proved under that premise too; that no day is lost needs only that no
  rebuilt price has an end.

## Model

| member | source | states |
|---|---|---|
| Runs.CrashAtomicity | scripts/cost_center_access_probe.py:286-344 | In every store of every run that starts from a projection, plans updates from the stored values, lands their writes one at a time and may abandon any plan after any write, every owner's lookup at every time decides what the membership and expiry of the last manifest write that landed say |
| Runs.TornReadsFailClosed | scripts/cost_center_access_probe.py:306-344 | A reader that takes the manifest at one moment of a run and the shard at any later one decides what the manifest it read published, or invalid: invalid exactly when, in between, the owner's pointer moved on and the bank that it led to was staged again |
| Runs.NeverRewritten | scripts/cost_center_access_probe.py:306-324 | A bucket's bank and generation, once a manifest points there, reads back as the records published, until the pointer has moved on and the bank is staged again, and from then on not at all |
| Runs.PlanOrder | scripts/cost_center_access_probe.py:302-324 | An update writes its changed buckets into their inactive banks at the next generation, and the manifest last |
| Runs.PlanCompletes | scripts/cost_center_access_probe.py:306-324 | Once all of an update's writes have landed, the store publishes the update's members and expiry |
| Reordering.ReorderedVisibility | scripts/cost_center_access_probe.py:306-344 | From a store whose inactive banks hold no shard of the next generation, any subset of an update's writes gives each owner the old decision without the manifest, and with it the new decision, or invalid exactly when the owner's changed shard is not among them |
| Reordering.AbandonedStageShows | scripts/cost_center_access_probe.py:306-344 | Without that premise: after an abandoned update staged an owner's bucket, a later manifest seen before its own shard gives the decision of the abandoned update's members |
| Abandoned.AbandonedExample | scripts/cost_center_access_probe.py:286-344 | In every group, for every owner and at every time there is such a store: the owner is absent, the update in flight makes it a member of the graph or expired, and a reader that sees only its manifest decides direct |
| Abandoned.ReorderedExactly | scripts/cost_center_access_probe.py:306-344 | Whatever subset of an update is visible, every owner gets the old decision, the new one or invalid at all times, exactly when what lies in the inactive bank of each bucket that changes, at the next generation, is harmless to its owners: unreadable, or the owner stands in it as in the new members, or as in the old ones with the same expiry where only a graph makes it a member |
| Abandoned.HiddenInvalid | scripts/cost_center_access_probe.py:306-344 | With the manifest visible and the owner's changed shard not, lookup is invalid exactly when the inactive bank has no readable shard of the next generation |
| Histories.HistoryMeaning | scripts/cost_center_access_probe.py:286-344 | After a projection and any history of completed updates, every lookup is the eligibility that the last list of members gives |
| Histories.HistoryReordered | scripts/cost_center_access_probe.py:306-344 | After any such history the premise of reordered visibility holds, so the next update may become visible in any order |
| Feasibility.Projectable | scripts/cost_center_access_probe.py:207-296 | A membership can be projected exactly when no object has two kinds, the expiry has ten digits, and no bucket has more than 179 records |
| Feasibility.Plannable | scripts/cost_center_access_probe.py:306-324 | From a store that publishes a commit, an update can be planned exactly when its members and expiry are proper and every bucket that changes has room and a generation left |
| Feasibility.RunPlannable | scripts/cost_center_access_probe.py:299-324 | So at every moment of a run: what abandoned updates staged never stands in the way of the next update |
| Commits.LookupMeaning | scripts/cost_center_access_probe.py:327-344 | In a store that publishes a commit, lookup is invalid for no owner: it is absent without an equal owner, direct with a direct source, and otherwise graph strictly before the expiry and expired from it on |
| Commits.PlannedIsPlan | scripts/cost_center_access_probe.py:306-324 | What the planner returns is a plan in the declarative sense: a step for each bucket from the stored records to the new ones, the changed shards staged, and the manifest last when it changes |
| Commits.PlanIsPlanned | scripts/cost_center_access_probe.py:306-324 | There is no other such plan |
| Commits.ProjectedHolds | scripts/cost_center_access_probe.py:286-296 | A projection publishes its members and expiry |
| Projections.JudgeMeaning | scripts/cost_center_access_probe.py:207-222 | Searching the records of an owner's bucket decides the owner's eligibility: all sources of equal owners count, an owner of the other kind does not match |
| Projections.Lookup | scripts/cost_center_access_probe.py:327-344 | The reader's steps and loop decide what the published records say, an unreadable store as invalid; a time outside ten digits is an error |
| Projections.Search | scripts/cost_center_access_probe.py:338-344 | The scan of the records finds the owner's own record, or that there is none |
| Updates.Project | scripts/cost_center_access_probe.py:286-296 | Both banks of every bucket at generation 0, and a manifest that points at bank 0 of each |
| Updates.PlanUpdate | scripts/cost_center_access_probe.py:306-324 | The loop over the buckets and the changes to pointers and values produce the planned writes, and the values are those writes applied to the old ones |
| Members.MakeRecords | scripts/cost_center_access_probe.py:207-222 | The dictionary of owners and the sorted buckets: an error exactly for conflicting kinds, and otherwise each bucket's record bytes |
| Members.BucketMeaning | scripts/cost_center_access_probe.py:207-222 | A bucket holds one record for each object hashed to it, with the flags of all its members, in strict order, and no other record |
| Members.BucketUnique | scripts/cost_center_access_probe.py:207-222 | That description fixes the records: the order in which members come does not matter |
| Members.BucketMask | scripts/cost_center_access_probe.py:202-204 | An object's bucket is the first byte of the hash of its ID's digits, masked bit by bit with one less than the number of buckets |
| Commits.RecordPlaced | scripts/cost_center_access_probe.py:207-222 | In a store that publishes a commit, so in every projection, a member's record is in the shard that this mask names, and in no other |
| Members.DirectMeaning | scripts/cost_center_access_probe.py:132-145 | The direct flag of a record says that some member of the owner has a direct source |
| NamedValues.ShardCodec | scripts/cost_center_access_probe.py:225-252 | Reading a shard gives records exactly when they are whole, strictly ordered, nonzero and validly flagged, and writing them at that generation gives the value back |
| NamedValues.ReadShard | scripts/cost_center_access_probe.py:234-252 | The strict reader's steps and loop accept exactly the written form of valid records at the generation |
| NamedValues.ManifestCodec | scripts/cost_center_access_probe.py:255-283 | Reading a manifest and writing one undo each other, over exactly the manifests with one pointer a bucket and fields of their widths |
| NamedValues.BucketShard | scripts/cost_center_access_probe.py:207-252 | Every bucket of at most 179 records is written and reads back as written; a larger one exceeds the limit of 4096 characters |
| NamedValues.OtherGeneration | scripts/cost_center_access_probe.py:237-239 | A shard written at one generation does not read at another |
| StoredForm.NameForm | scripts/cost_center_access_probe.py:149-167 | The manifest and each bank of each bucket have their own name of the group: the bucket in two hexadecimal digits, and the bank |
| StoredForm.ShardForm | scripts/cost_center_access_probe.py:225-231 | A shard's text is a version, its generation in sixteen hexadecimal digits, and its records in base64, with bars between |
| StoredForm.ManifestForm | scripts/cost_center_access_probe.py:255-270 | A manifest's text is a version, its expiry in ten digits, and for each bucket the bank's digit and the generation in sixteen |
| StoredForm.GuidOrder | scripts/cost_center_access_probe.py:219-221 | A record has the object's bytes with the first three fields, of four, two and two bytes, reversed |
| StoredForm.FlagBits | scripts/cost_center_access_probe.py:143-145 | The flags are one bit for each of direct, graph and application, in that order; one of the first two is set in a valid record |
| StoredForm.SymbolTable | scripts/cost_center_access_probe.py:228-231 | The alphabet of section 4 of RFC 4648, place by place |
| StoredForm.GroupBits | scripts/cost_center_access_probe.py:228-231 | Four symbols hold the bits of three bytes, in order |
| StoredForm.SampleShard | scripts/cost_center_access_probe.py:207-231 | One shard, character by character |
| Base64.DecodeEncode | scripts/cost_center_access_probe.py:228-244 | Decoding undoes encoding (section 4 of RFC 4648) |
| Base64.CanonicalDecoding | scripts/cost_center_access_probe.py:241-245 | With the check that encoding gives the text back, the strict decoder and the policy's decoder, which skips white space, accept the same texts, exactly the encodings, and read the same bytes (section 3.5 of RFC 4648) |
| Records.AscendingUnique | scripts/cost_center_access_probe.py:222-252 | Strictly ordered records are fixed by which records they are |
| Policy.MembershipExpression | scripts/cost_center_access_probe.py:354-415 | The one-pass expression decides, for the text of an owner, what lookup decides in every store at every time, and absent for any other text |
| Policy.Scan | scripts/cost_center_access_probe.py:393-409 | The loop that checks flags, zero objects and order while it remembers a match finds records invalid exactly when the reader does, and otherwise remembers the owner's flags |
| Policy.CompareIds | scripts/cost_center_access_probe.py:397-406 | The byte loop finds whether two objects are equal, whether one is zero, and their order |
| Policy.ManifestPartsMeaning | scripts/cost_center_access_probe.py:366-373 | The split and patterns accept exactly the manifests that the strict reader accepts, and take the bucket's pointer from them |
| Policy.ShardPartsMeaning | scripts/cost_center_access_probe.py:385-392 | The split and decoder accept exactly the shards whose form the strict reader accepts, at the generation |
| Policy.OwnerTextMeaning | scripts/cost_center_access_probe.py:354-359 | The owner pattern and the parsing of its digits read back exactly the owner that the text was written for |
| Policy.MaskedBucket | scripts/cost_center_access_probe.py:359-364 | The expression's own bucket, from the hash of the digits in the owner's text and the mask, is the reader's |
| Refreshing.Refresher.CarryForward | scripts/price_seed.py:825-959 | The refresh, which changes the rebuilt prices, the IDs in use, the sources and the notes in place, reaches the state that the specification gives; what it leaves is sorted: the listed and carried prices by ID, and the sources added by theirs |
| Refreshing.Refresher.GoThrough | scripts/price_seed.py:904-955 | One old price is skipped, carried, backdated, ended or split as its replacement says, with its notes in order |
| Refreshing.Refresher.EndRegional | scripts/price_seed.py:937-955 | A regional price's replacements are looked at region by region, and it is cut into groups of its regions by their last days |
| Refreshing.Refresher.EndRegionless | scripts/price_seed.py:923-935 | A replaced regionless price is kept until its replacement, and for regions that change later until they do |
| Refreshing.Refresher.FindFirst | scripts/price_seed.py:939-948 | min() over the covering prices is the first of those that begin earliest in the region |
| Refreshing.Refresher.Date | scripts/price_seed.py:839-851 | A source of an old price is cited under its own ID while the rebuilt list has it unchanged, and otherwise under one that ends with its day |
| Coverage.NoGap | scripts/price_seed.py:895-955 | For every old price, region it served and day it was in force there, the result has a price of the line in force there and then; and one with the old amounts if the price had ended, and otherwise on every day on which no rebuilt price of other amounts has begun there, so that an unchanged or absorbed price keeps its amounts on all of its days |
| Coverage.AlreadyPricedDays | scripts/price_seed.py:877-955 | On every day up to the one it was last read, an old price leaves its own amounts in force wherever it served, or a warning that names it and a replacement dated no later |
| Coverage.WarningsMeaning | scripts/price_seed.py:877-886 | A refresh warns only about an open old price and the day that a rebuilt price of other amounts replaces it, dated no later than that price's last reading |
| Coverage.ReadOnMeaning | scripts/price_seed.py:880-883 | The last reading of a price is that of one of its sources, and none of them was read later |
| Coverage.EndedStays | scripts/price_seed.py:907-910 | An old price that had ended is in the result, the same but for its ID and sources |
| Lifetimes.EverPriced | scripts/price_seed.py:904-958 | Through any number of refreshes against any rebuilt lists without ends, a day that some list prices in a region is priced there in every later list |
| Lifetimes.EndedForever | scripts/price_seed.py:904-958 | A price that has ended is in every later list, the same but for its ID and sources |
| Lifetimes.CanRefresh | scripts/price_seed.py:826-875 | A list whose prices have distinct IDs and cite its own sources can be refreshed against any rebuilt list of that kind, and stays one |
| Coverage.EndsMeaning | scripts/price_seed.py:937-953 | A region is in the group of its last day, in no other group, and the groups go from the earliest day to the open one |
| Coverage.LaterMeaning | scripts/price_seed.py:928-933 | The regions that change later are grouped by the day they do, in order |
| Pieces.ExactEnds | scripts/price_seed.py:853-955 | Every price newly closed covers at least one day. In the list that the refresh returns its replacement begins no later than the day after it ends, in every region that it lists, and exactly then if and only if no later old price takes the replacement back; a piece for regions that change later always ends exactly |
| Pieces.NotOvertaken | scripts/price_seed.py:923-955 | In a region, no later old price takes a replacement back to before the piece it ended, when every later regionless old price at a rebuilt price's line and amounts starts no earlier than that rebuilt price, or the region has a row of its own dated no earlier than the rebuilt price |
| Pieces.NotOvertakenEverywhere | scripts/price_seed.py:918-926 | Nor back to before a whole regionless piece, when every later old price that the replacement absorbs starts no earlier than it |
| Pieces.NoneLaterOvertakes | scripts/price_seed.py:914-955 | Neither happens to any piece of an old price after which the old list has no open regionless price of the line |
| Pieces.OvertakenExample | scripts/price_seed.py:920-955 | A list and two old prices, the regional one first, for which the piece and its replacement overlap in the result |
| Pieces.ListedAsOf | scripts/price_seed.py:918-922 | The listed prices in the result are the rebuilt ones, each from the earliest of its own start and those of the old regionless prices of its line and amounts |
| Pieces.EndsWhenCut | scripts/price_seed.py:904-955 | As the list stood when its old price was reached, every piece ends exactly the day before its replacement begins in every region that it lists |
| Pieces.RegionlessDisjoint | scripts/price_seed.py:928-935 | The pieces cut for regions that change later list pairwise disjoint regions |
| Pieces.RegionalCuts | scripts/price_seed.py:937-955 | The pieces of a regional price list only its regions, each in one piece, with the last day that its replacement leaves it as the list stood when the price was reached |
| Pieces.PiecesDisjoint | scripts/price_seed.py:904-955 | Two carried prices of the result that list regions and come from one old price list no region in common |
| Pieces.PieceNoRepeats | scripts/price_seed.py:928-955 | No carried price lists a region twice, unless the old price that it is a piece of did |
| Pieces.CarriedOrigin | scripts/price_seed.py:904-955 | Every carried price is a named piece of a named old price, cut as the rebuilt list stood when that price was reached, and carried in the order of the old prices and of their pieces |
| CarriedNames.CarriedName | scripts/price_seed.py:853-874 | A carried price keeps the ID of an old price that had ended; otherwise its ID is the old one without a carried suffix, with .until- and the last day that the piece has, or .last if it has none; a number may follow, and no other price has the same ID |
| SortedLists.EverWritten | scripts/price_seed.py:563-623 | Refreshes of a list in the order of its IDs, made as the seed makes them, leave such a list: well formed, each open price named after its line, and with at most one open regionless price a line |
| SortedLists.HistoryEndsExactly | scripts/price_seed.py:904-957 | So in every refresh of such a history, every piece ends exactly the day before its replacement begins in the list that comes out, in every region that it lists |
| SortedLists.ShapedOrder | scripts/price_seed.py:563-619 | Of one line, an open regionless price's ID sorts before an open regional one's, carried or not |
| Idempotence.IdsStayUnique | scripts/price_seed.py:832-875 | A refresh gives no two prices one ID, every price's ID is among those in use, and the notes say of each price that was carried, in order and of no other, that it was kept and until when |
| Idempotence.RefreshedCites | scripts/price_seed.py:839-851 | Every source that a carried price cites is in the list, the rebuilt ones are unchanged, and the ID of every other ends with its day of reading |
| Idempotence.RefreshedTight | scripts/price_seed.py:839-851 | Every source added is listed under its own ID, once, beside the rebuilt ones, and some carried price cites it |
| Repeated.RefreshTwice | scripts/price_seed.py:904-958 | Refreshing the result against the same rebuilt list, in any order of its prices, gives the same listed prices, the same sources, the same sources added, and the same carried prices up to the numbers of their IDs; ended prices keep their whole IDs where none is one that an open price could be given |
| Repeated.TwiceExample | scripts/price_seed.py:914-922 | A rebuilt list with two regionless prices of a line, otherwise fit, for which the second refresh gives other prices |
| Repeated.OpenIdKept | scripts/price_seed.py:791-863 | An open price carried before gets the ID base that it had, so only its collision number can change |
| Repeated.CarriedSettled | scripts/price_seed.py:904-955 | What a refresh carries is settled: a second refresh finds no replacement that would cut it again |
| Identifiers.FindId | scripts/price_seed.py:861-864 | The search for a free ID ends, with the first of base, base-2, base-3 and so on that is not in use |
| Identifiers.UniqueIdMeaning | scripts/price_seed.py:861-864 | That ID is the base where it is free, and otherwise the base with the first number from 2 on that gives a free one |
| Identifiers.StripSuffixed | scripts/price_seed.py:791-854 | Removing a carried suffix from an ID that was given one gives back the ID it was given to |
| Identifiers.StripMeaning | scripts/price_seed.py:791-854 | What is removed is the longest end of an ID that is a carried suffix, if one is |
| Identifiers.CarriedSuffixMeaning | scripts/price_seed.py:791 | A carried suffix is .last, or .until- and a date, with or without a number after it |
| Identifiers.DateMeaning | scripts/price_seed.py:791 | A date is four digits, two and two, with hyphens between |
| Refresh.UndashedMeaning | scripts/price_seed.py:846-847 | The stamp of a day keeps every character of its date but the dashes, in order |
| Prices.SameMeaning | scripts/price_seed.py:806-807 | Two prices are the same when every field but the ID is |
| Prices.CloudsMeaning | scripts/price_seed.py:517-520 | Three regions are the government's, Global and no region are in no cloud, and the others are commercial |
| Grouping.Grouped | scripts/price_seed.py:567-585 | One price everywhere since the earliest day of any region, unless the type is regional; otherwise every region is in exactly one list, that of its price and day, the lists ordered by their first region |
| Grouping.FirstComesFirst | scripts/price_seed.py:584-585 | Of two lists the earlier has a region that comes before every region of the later |
| Grouping.GroupedIsRebuilt | scripts/price_seed.py:567-623 | So of the prices of a rebuilt line one serves every region alone or no two serve the same, and a refresh's premise holds of it |
| Indexing.Index.Add | scripts/price_seed.py:530-543 | Reading rows keeps, for each place of the product, the latest row in effect of the first tier, and leaves other products' places alone |
| Indexing.LatestMeaning | scripts/price_seed.py:534-543 | The row kept is one of those read, counts, and none of its place that counts took effect after it |
| Indexing.ReadAgain | scripts/price_seed.py:540-543 | Reading the same rows again changes nothing |
| Prices.ComputeRegionStarts | scripts/price_seed.py:746-761 | The loops over the meters and their regions find each region's start |
| Prices.RegionStartsMeaning | scripts/price_seed.py:746-761 | A region's start is the latest day among the rows of the price's meters there, and exactly the regions with such a row have one |
| Prices.MetersRowMeaning | scripts/price_seed.py:746-761 | Those rows are the ones of the price's product, cloud and region with one of its four meters |
| Names.SortNamesMeaning | scripts/price_seed.py:585 | Sorting keeps the names, each as often, and puts them in order |
| ModelSpend.SpendBound | e2e/src/model-runtime.ts:111-219 | In every interleaving of callers that share an allowance, requests, reserved prompt tokens and reserved dollars stay within their bounds, and all accepted replies together truly cost at most the reserved dollars |
| ModelSpend.NothingSentAfterFailure | e2e/src/model-runtime.ts:157-219 | After a failed guard, a failed transport or a rejected reply, no later call is sent, whatever the callers do |
| ModelSpend.CallModel | e2e/src/model-runtime.ts:157-219 | An uninterrupted call, with any others in flight, takes the allowance through the events of its run: a failed guard stops it, a call that is not ready or not admitted changes nothing and sends nothing, and what came back is settled |
| ModelSpend.SendCall | e2e/src/model-runtime.ts:157-184 | The first half of a call takes any run of callers that share the allowance, whatever is in flight, through at most one event, and keeps its bounds; it is sent by the connection's approved route, with the token, or with the key when its use was approved and the grant has one, never both |
| ModelSpend.SettleCall | e2e/src/model-runtime.ts:181-219 | The second half, after any events of other callers, takes the run through the failure of the transport or the reply to that call, and keeps its bounds |
| ModelSpend.Settle | e2e/src/model-runtime.ts:188-219 | The checks of a reply give the observation or stop the allowance |
| ModelSpend.ModelAllowance.Reserve | e2e/src/model-runtime.ts:128-139 | A request is admitted exactly when every bound leaves room for its worst case, which is then reserved; otherwise nothing changes |
| ModelSpend.Open | e2e/src/model-runtime.ts:119-126 | There is an allowance exactly at known prices, with nothing reserved |
| ModelSpend.TrueCostBound | e2e/src/model-runtime.ts:198-199 | Cached tokens are never dearer, so a reply costs no more than its tokens at the reserved prices, and never less than nothing |
| ModelSpend.CostLaw | e2e/src/model-runtime.ts:128-131 | A token of either kind costs a millionth of its price, and a request what its tokens do |
| ModelSpend.TrueCostLaw | e2e/src/model-runtime.ts:198-199 | With no cached token a reply costs what a request of its tokens does, and each cached one makes it cheaper by the difference of the two input prices |
| ModelSpend.ReplyCostLaw | e2e/src/model-runtime.ts:188-199 | What an accepted reply adds to the true cost is that of its own tokens, with those cached that it reports, or that the provider priced so where it reports none; a refusal adds nothing |
| ModelSpend.SettlingMeaning | e2e/src/model-runtime.ts:176-219 | Settling takes one call, and no other, out of flight; an accepted reply adds its cost, and anything else stops the run and adds nothing |
| ModelSpend.ObservedMeaning | e2e/src/model-runtime.ts:188-215 | A reply is observed exactly when its status is expected, each remainder is read from its own header, a success reports usage within the reservation, priced where the budget is at stake, and a refusal reports none |
| ModelSpend.UsageMeaning | e2e/src/model-runtime.ts:53-65 | Usage is taken exactly from a chat completion whose counts are all there and add up, with some of the prompt, and no more of it cached than there is |
| ModelSpend.StatusesMeaning | e2e/src/model-runtime.ts:188-189 | Which statuses each kind of call may come back with |
| ModelSpend.ReservedPrompts | e2e/src/model-runtime.ts:105-109 | 160 tokens are reserved for the fixed prompt, and 655 for the larger one |
| ModelSpend.BudgetPromptText | e2e/src/model-runtime.ts:105-108 | The larger prompt, character by character |
| ModelSpend.ReplyCostBound | e2e/src/model-runtime.ts:128-199 | An accepted reply costs no more than was reserved for it |
| PooledTokens.PooledTokenProof | e2e/src/model-runtime.ts:239-292 | However a run ends, its calls are the planned ones in order, and at most maxRequests. A returning run shows a fresh shared counter: at every success the pool fell by all use so far and each caller's own quota by its own, then the pool refuses, then both callers, and a control call ends it; and it returns exactly when that is what happens |
| PooledTokens.SpendTokens | e2e/src/model-runtime.ts:250-280 | The loop stops with an error unless the successes fit and the refusal is the pool's own |
| PooledTokens.PooledTokenMeaning | e2e/src/model-runtime.ts:262-281 | In such a run both callers used a positive amount, and their uses sum to what left the pool |
| PooledTokens.CountersFall | e2e/src/model-runtime.ts:262-277 | From one call to the next the pool falls by what the call used, and from one call of a caller to its next so does that caller's own quota, the first from the quota itself; each prompt used something, and some of the caller's minute is left |
| PooledTokens.ExhaustionMeaning | e2e/src/model-runtime.ts:257-262 | A refusal is the pool's own when the pool has fewer than 160 tokens left and the caller's minute and quota each have 160 or more |
| BudgetProof.BudgetProof | e2e/src/model-budget.ts:66-125 | Against any replies, views and writes: a proof is returned only when the block was seen and then the raise, every step in between having succeeded; however a run ends, its calls and writes are a baseline, probes, and only after the block was seen the control, the raise and its probes; and it returns one exactly when, within maxRequests probes each, the block and then the raise is seen while nothing before went wrong, and every call and write in between succeeds |
| BudgetProof.BlockProbes | e2e/src/model-budget.ts:81-103 | The first loop sends the prompt that the known spend allows, keeps the first 403, and succeeds exactly when a probe is refused under a view that shows the block, and the run could wait after every probe before |
| BudgetProof.RaiseProbes | e2e/src/model-budget.ts:110-122 | The second loop keeps the first success, and succeeds exactly when a probe succeeds under a view that shows the raise, and the run could go on after every probe before |
| BudgetProof.ProofMeaning | e2e/src/model-budget.ts:55-125 | The views that a returned proof started, blocked and raised on are the target's and current, fully priced, and notify nobody, and the saved amounts are those planned in cents. Cents(amount) is at most the cents spent when blocked, and these are fewer than cents(raised amount); exactly the managed gateways report, each in the intended state; in R14 the spend crossed the amount during the run, in R12 it had before; the 403 kept is the first that a probe got, and the success kept the first after the raise |
| BudgetProof.PricedBudgetMeaning | e2e/src/model-budget.ts:42-53 | A view has a priced spend exactly when it is the target's and current, with a measure up to a readable time, no unpriced token, no error and nobody to notify; and it is that measure in cents |
| BudgetProof.GatesMeaning | e2e/src/model-budget.ts:55-63 | When the gates hold, the action is to block, and as many gateways as are managed report, each a managed one, in the intended state |
| BudgetProof.GatesFollow | e2e/src/model-budget.ts:55-63 | And they hold when each managed gateway so reports, in its place |
| BudgetProof.StartsMeaning | e2e/src/model-budget.ts:70-77 | On a fully priced view a run starts exactly when the budget does not block and, in cents, R12 has spent the amount and R14 has not |
| BudgetProof.ComparedInCents | e2e/src/model-budget.ts:74-103 | Amounts are compared by their cents |
| BudgetProof.LargerPromptNeverAgain | e2e/src/model-budget.ts:81-95 | Once the known spend reaches the amount in cents, no later call of the run sends the larger prompt |
| BudgetProof.GateOf | e2e/src/model-budget.ts:55-63 | When the gates hold, each managed gateway is among those that report the state, with no error and a time of synchronization |
| ModelConfig.CentsMonotone | e2e/src/model-config.ts:81-88 | More dollars are never fewer cents |
| ModelConfig.CentsTies | e2e/src/model-config.ts:83-87 | Half a cent goes to the even neighbour |
| ModelConfig.CentsNear | e2e/src/model-config.ts:83-87 | Rounding moves an amount by at most half a cent and the width of a tie |
| ModelConfig.CentsMeaning | e2e/src/model-config.ts:81-88 | An amount of so many whole cents and a rest is the whole, or the next, as the rest is below or above a half; within a billionth of a half it is the even one |
| Notices.NotificationDeliveryEvidence | e2e/src/model-evidence.ts:206-262 | The checks accept a record exactly when it meets the declarative account of accepted evidence |
| Notices.ScanChecks | e2e/src/model-evidence.ts:213-228 | The loop over the checks succeeds exactly when they are in order, and then has reached and notified what the first crossings say |
| Notices.DueMeaning | e2e/src/model-evidence.ts:225-228 | Each threshold is notified at most once, at the first check that crosses it; 80 percent only when that check is earlier than the one that crosses 100, so never two at one check |
| Notices.DueNext | e2e/src/model-evidence.ts:225-227 | A check notifies the highest threshold that it newly crosses, and no other |
| Notices.CheckDelivery | e2e/src/model-evidence.ts:250-261 | The nested loops succeed exactly when every notice was delivered in time |
| Notices.AcceptedMeaning | e2e/src/model-evidence.ts:229-243 | An accepted record has one threshold notice for each threshold due, one block, one unblock and no other notice; the check that first reached the amount is no later than the block's first attempt, nor that than the unblock's |
| Notices.AcceptedTimes | e2e/src/model-evidence.ts:206-247 | An accepted record is for the target's amount in cents, with two checks or more, each later than the one before it by both its times, then the recheck's window, then the mailbox's |
| Notices.AcceptedNotices | e2e/src/model-evidence.ts:206-254 | Each of its notices is the target's, was sent, has an ID and an operation of its own, was first attempted no later than it was sent, before the recheck; and the recheck found the same IDs |
| Notices.AcceptedKinds | e2e/src/model-evidence.ts:229-235 | It has one block and one unblock, no other kind, and no two threshold notices for one threshold |
| Notices.AcceptedReceipts | e2e/src/model-evidence.ts:246-249 | No message of it counts twice, and each receipt is of a notice |
| Notices.AcceptedReceived | e2e/src/model-evidence.ts:255-256 | Each of its notices was received |
| Notices.AcceptedInTime | e2e/src/model-evidence.ts:255-260 | Each receipt came in between the first attempt of its notice and the end of the mailbox's window |
| Notices.CrossingMeaning | e2e/src/model-evidence.ts:225 | A check crosses 80 percent when its spend is no less than four fifths of the amount, and 100 when no less than the amount, each in rounded cents |
| Notices.SampleAccepted | e2e/src/model-evidence.ts:206-262 | A record with both thresholds, a second attempt and a message received twice is accepted |
| Notices.ReceiptOfOneNotice | e2e/src/model-evidence.ts:246-261 | Each receipt of an accepted record is of exactly one notice, received between its first attempt and the end of the observation |
| PoolQuota.ProvePooledQuota | scripts/verify_mcp_access.py:1615-1676 | Against any gateway and server, a pass on a stateful server means that DELETE was the calls-th call let through, and the quota refused first after between calls and calls + 2; at most calls + 3 requests and one DELETE retry are sent under the grant, however the run ends, and every request names its own grant's cost center; against an exact counter and a working server it passes with every call let through |
| PoolQuota.SpendPool | scripts/verify_mcp_access.py:1567-1592 | The session opens and echoes, under its code and then under one that differs from it at every letter, by case alone, until a call is refused or fails, or the calls planned are spent: one short of the pool with a session, one past it without |
| PoolQuota.SwappedIsSame | scripts/verify_mcp_access.py:1583-1584 | The code in the other case is the same code to a gateway that compares without case |
| PoolQuota.SwapsLetters | scripts/verify_mcp_access.py:1583-1584 | Swapping changes every letter of a code to the same letter in the other case and nothing else, and swapping twice gives it back |
| PoolQuota.OnlySwapped | scripts/verify_mcp_access.py:1583-1584 | A code is in the other case of another, letter by letter, exactly when it is that code swapped |
| PoolQuota.BoundedMeaning | scripts/verify_mcp_access.py:1620-1666 | The bound on a run's requests: fewer than four past the pool, or four when DELETE was sent twice in a row |
| PoolQuota.UseSession | scripts/verify_mcp_access.py:1637-1656 | On a stateful server the session's part succeeds only when the pool allowed every call and the DELETE; on a stateless one a quota's refusal is returned |
| PoolQuota.ProbePool | scripts/verify_mcp_access.py:1658-1666 | After the DELETE at most three probes are sent, until the quota refuses one |
| PoolQuota.CheckControl | scripts/verify_mcp_access.py:1595-1612 | The other grant works exactly when its session opens, echoes and ends; otherwise some call of it went wrong |
| PoolQuota.PoolProbe | scripts/verify_mcp_access.py:1513-1553 | A probe is let through, refused by the quota, or fails the run |
| PoolQuota.ExactServerIsExact | scripts/verify_mcp_access.py:1620-1626 | There are gateways and servers of the exact kind, stateful and stateless |
| McpSession.Session.Send | scripts/verify_mcp_access.py:560-615 | One message: nothing is sent after the deadline; it names the cost center, the session, and once one is negotiated the protocol version if it is late enough; a valid session ID of an opened one is kept, and an answer that is lost, or whose body cannot be read within its limits and the deadline, is an error |
| McpSession.Session.Initialize | scripts/verify_mcp_access.py:647-673 | The first two messages are sent unless the first is late, refused or not acceptable, or the second late; the refusal of either is returned, and the version negotiated is kept even when the server has no tools |
| McpSession.Session.Close | scripts/verify_mcp_access.py:675-734 | DELETE is sent once, and again only after a readable rate limit's refusal that says when, and that leaves time before the cleanup's own deadline; the session is over exactly when the last was let through and what it had to read could be read; what answered the last is kept even when its body was lost |
| McpSession.NamedVersions | scripts/verify_mcp_access.py:560-572 | Of the supported protocol versions, the two from 2025-06-18 on are named in requests and the two before are not |
| McpSession.GoesOnMeaning | scripts/verify_mcp_access.py:592-734 | The answers that a session goes on after: to initialize, a readable success with one of the four versions, tools and no invalid session ID; to initialized, any success; to echo, a readable result; to DELETE, a success or a readable 405. A body is lost when it ends at the deadline or after it, and cleanup has 330 seconds |
| McpSession.RefusalMeaning | scripts/verify_mcp_access.py:368-376 | A rate refused is a 429, a quota a 403, each with its own message, and a DELETE is repeated for a rate that says to come back in 1 to 300 seconds |
| EventStream.ReadEventStream | scripts/verify_mcp_access.py:483-526 | The reader returns the first event that answers when the budget lasts until that event is complete, and otherwise fails: too long when the stream exceeds the budget, and else unanswered |
| EventStream.MeaningIsUnique | scripts/verify_mcp_access.py:483-526 | Every stream means exactly one such outcome, so that account determines the reader |
| EventStream.DataMeaning | scripts/verify_mcp_access.py:518-522 | A data line is the field alone, or the field, a colon, at most one space and the value; every other line is ignored |
| EventStream.JoinMeaning | scripts/verify_mcp_access.py:493-500 | The values of an event's lines stand one after another with a line break between any two |
| EventStream.LastEventNeedsNoBlank | scripts/verify_mcp_access.py:523-526 | A blank line at the end changes no event that answers |
| EventStream.UnterminatedEventCounts | scripts/verify_mcp_access.py:523-525 | When the first event that answers is one that the stream ends within, it is returned if the budget lasts, and the stream is too long if not; up to its first line, which is what section 9.2.6 of the WHATWG HTML standard leaves of it, the stream would be unanswered |
| Mentions.Mentions | e2e/src/plan-scope.ts:191-203 | The scan ends, and is true exactly when some occurrence, overlapping ones included, is a whole name under the rule for full stops |
| Mentions.MentionedMeaning | e2e/src/plan-scope.ts:180-203 | A name is mentioned exactly when the text can be cut before and after an occurrence of it with no character of a name right before, and right after the end, no such character, or a full stop that none follows |
| Mentions.NameCharacters | e2e/src/plan-scope.ts:180 | The characters of names, by their codes |
| Mentions.ForeignNames | e2e/src/plan-scope.ts:221-232 | In order and without repeats, exactly the names of other publications, of three characters or more, that no own name mentions |
| Mentions.UniqueNamesMeaning | e2e/src/plan-scope.ts:205-219 | A publication's own names are those of its six parts, and of its resources of the six kinds that have such names |
| Mentions.OwnMeaning | e2e/src/plan-scope.ts:221-228 | The target's own names are those, what it is called and what it is deployed as; a missing name is none |
| Mentions.ForeignMentions | e2e/src/plan-scope.ts:235-237 | Exactly the foreign names that the text mentions |
| Mentions.OwnTextMentionsNothingForeign | e2e/src/plan-scope.ts:217-237 | A text made of own names, with something between any two that is in no name, mentions no foreign name made of characters of names |
| Mentions.SpacedNamesCanMeet | e2e/src/plan-scope.ts:217-237 | A foreign name with a space can be mentioned by such a text, so the restriction to characters of names is needed |

## Left out

- SHA-256 is a parameter, any function from texts to bytes; nothing depends on which.
- The store's errors carry no message: every failure is one `Error`, or the decision invalid.
- The text of the policy fragment, its XML and the C# around the algorithm are not modelled. Named values stand in a C#
  string without quotes, backslashes or line breaks; a missing one is taken as empty text, and lengths are in characters.
- Patterns take ASCII digits only, and an end of text is its end; `\d` in other scripts is not modelled.
- The native-context policy, subscription names, capacity reports and bundles of `scripts/cost_center_access_probe.py`.
- Refreshing.Refresher.CarryForward: notes are values, not sentences; that each is noted once, and in which order, is modelled. What is proved of the result beyond the sort holds of it in every order.
- Refreshing.Refresher.GoThrough: the dictionary by line and the memo of region starts are filters and recomputations, and a price is a value at its place in the list, not a shared dictionary.
- Repeated.RefreshTwice: the collision number of an open price's ID may change, since a refresh numbers IDs in the order it meets them.
- Prices.RegionStartsMeaning: rows are listed with their days already read from text, one for each product, meter and region, as the index keeps them.
- Grouping.GroupedIsRebuilt: the fields that a rebuilt price has besides its line, regions and days are left out, as are the amounts' rounding, units and the fetching of pages.
- Floating-point rounding: prices, spend and budgets are reals, so `cents` meets its tie width of one billionth exactly.
- ModelSpend.Settle: JSON is abstracted into what each check asks of it; request IDs and the recording of observations are left out, and safe integers are natural numbers.
- ModelSpend.CallModel: the route is the outcome of checking the endpoint and the operation; `connectionProblems` is a list of checks of fields, and easy.
- PooledTokens.PooledTokenProof: the pause between calls, and the labels and codes of calls.
- BudgetProof.BudgetProof: the times of the two saves, the pauses and labels; the current month and the isolation of the target are fields that say whether they hold.
- Notices.NotificationDeliveryEvidence: timestamps are missing, unreadable or a time, and sorted lists compared as JSON are compared as multisets.
- McpSession.Session.Send: the body is known by when the last of it that is read arrives, and by whether it can be read within its limits and holds an acceptable result; the credentials are the grant's, whichever they are, and JSON-RPC request numbers are left out.
- PoolQuota.ProvePooledQuota: the plan that finds the pool and the control grant, and the messages; the bound of 50 calls is not needed, and the floor of 5 calls is the only demand on the pool. Letters in a code are ASCII, as its pattern demands.
- EventStream.ReadEventStream: splitting bytes into lines, and parsing JSON, which is a parameter that says whether a text answers the request.
- Mentions.Mentions: the matcher is the first occurrence from its index, under a parameter that folds case; the theorem about own texts asks that folding keeps characters of names apart from others.
- Mentions.ForeignNames: names are compared character by character, in the order of characters.
- `scripts/mosaic_entra.py`, `scripts/federal_demo`, the manifests, redaction, catalog tables, and everything that talks to services: no algorithm of interest beyond these.
