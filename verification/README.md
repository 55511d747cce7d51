# Share core of the softcam, modelled and proved in Dafny

This project models the card-sharing core of the softcam and the indexes around it. The
source paths below are those of the repository.

* **CCcam transport** (`Bytes`, `CryptStream`, `Transport`, `Login`): the stream cipher with
  data feedback, length-prefixed messages over it, and the login that must leave the cipher
  blocks of the two ends mirrored.
* **Share distribution** (`Cards`, `ServerList`, `ListedCards`, `CardWire`, `Forwarding`, `ShareUpdate`,
  `ShareSurvival`, `ShareHistory`, `ReaderTable`, `ReaderView`, `ShareNetwork`, `ShareRuns`): merging cards
  into a share list, announcing them on the wire, updating the share list by differences and
  whole runs of that, the card table of a reader and what it makes of such runs, and whole
  networks of nodes that pass cards on.
* **Control-word cycle checker** (`CwCycle`, `CwLearning`): the learning stages, the list of entries, the
  ring of remembered answers, and cleaning.
* **Cache pushes** (`CachePush`, `PushNetwork`): the message that carries an answer to a
  peer, the limits on its path, and networks of peers.
* **Emulator store and file handles** (`EcmStore`, `HandleCache`): a hash table over a
  growing pool against a scan of the file, and a cache of open files.
* **Key database** (`KeyChains`): arrays of entries with bounded chains.
* **camd35 framing** (`Camd35`): padded, encrypted, signed packets read back in two pieces.

Each component has a functional specification, methods that work in place as the code does
and are proved against it, and lemmas that say what the specification is for. Allocation
succeeds, `CS_CACHEEX_AIO` is defined, SHA-1 (section 6.1 of FIPS 180-4), AES, CRC-32 and
xxHash are parameters, the time is an input, and each locked region is one step.

Where a property does not hold of the code as it is, the code is kept, a lemma shows where it
fails, and another one says exactly when it holds:

| fails | holds exactly |
|---|---|
| `StaleCardStays`: a client is not told of a card a full resend would leave out | `UpdateExact` of the share list |
| `GroupsCollapse`: a reader lists less than it has been told of | `ListsExactly` |
| `MergedTooLong`: a merged card does not fit a message | `FitsExactly` |
| `EqualProvidersNotSymmetric`, `OfferedTwice`: repeated providers | `EqualProvidersExactly`, `HopsDeduplicatesExactly` |
| `ThirdNodeMiscounts`, `MergedCardsComeBack`: hops and paths differ | `HopsMatchExactly` |
| `LateDuplicateShadows`, `CounterIsShadowed`: a late repeat shadows the first line | `HitsAgreeExactly`, `AllAgreeExactly` |
| `ShortProviderMisled`: a key is looked up in the wrong entry | `UpdateExact` of the keys |
| a provider number above 24 bits, or the Betacrypt placeholder | `CardRoundTrip` |
| a packet with command 4, or a cache push of default length above 255 bytes | `ConsumedExactly`, `ConsumedIfSized`, `DefaultPushSized` |

`dafny verify dfyconfig.toml` checks the whole project.

## Model

| member | source | states |
|---|---|---|
| `Bytes.XorIsBitwise` | app/src/main/cpp/ncam/module-cccam.c:87-109 | a bit of the exclusive or is set exactly if it is set in one of the two operands |
| `CryptStream.SchedulePermutes` | app/src/main/cpp/ncam/module-cccam.c:66-85 | whatever the key, the key table holds every byte value exactly once after each round of the key schedule |
| `CryptStream.SessionPermutes` | app/src/main/cpp/ncam/module-cccam.c:87-109 | so does the table after any number of bytes in either direction |
| `CryptStream.PermutationIsInjective` | app/src/main/cpp/ncam/module-cccam.c:66-109 | such a table has no value twice and leaves none out |
| `CryptStream.IsRc4WithFeedback` | app/src/main/cpp/ncam/module-cccam.c:87-109 | the cipher is RC4 with plaintext feedback: output byte n is input byte n with keystream byte n of RC4 and all the plaintext before it mixed in, and the tables never depend on the data |
| `CryptStream.KeysDiffer` | app/src/main/cpp/ncam/module-cccam.c:72-79 | keys that first differ at byte i schedule alike up to round i, and not in the next |
| `CryptStream.KeyStartsOver` | app/src/main/cpp/ncam/module-cccam.c:72-79 | a key that is used up starts over |
| `CryptStream.CryptAppend` | app/src/main/cpp/ncam/module-cccam.c:87-109 | the cipher over a concatenation is the cipher over the first part, then over the second from the block it leaves |
| `CryptStream.RoundTrip` | app/src/main/cpp/ncam/module-cccam.c:87-109 | from the same block, decrypting what was encrypted gives the data back and the very same block, in all fields |
| `CryptStream.RoundTripBack` | app/src/main/cpp/ncam/module-cccam.c:87-109 | encrypting what was decrypted does so too |
| `CryptStream.ChunksAreOneRun` | app/src/main/cpp/ncam/module-cccam.c:87-109 | how data is cut into calls does not matter for the output or the block |
| `CryptStream.AnyChunking` | app/src/main/cpp/ncam/module-cccam.c:87-109 | what is encrypted in any pieces is read back from any other pieces, and the blocks end equal |
| `CryptStream.CryptBlock.Init` | app/src/main/cpp/ncam/module-cccam.c:66-85 | the in-place key schedule computes the specified block |
| `CryptStream.CryptBlock.CryptCell` | app/src/main/cpp/ncam/module-cccam.c:94-107 | one round of the loop, in place, is one step of the specified cipher, for plaintext feedback in both directions |
| `CryptStream.CryptBlock.Crypt` | app/src/main/cpp/ncam/module-cccam.c:87-109 | the loop over a buffer changes exactly the given range, as specified |
| `Transport.ReceivedIffFits` | app/src/main/cpp/ncam/module-cccam.c:776-876 | a message comes back, with its flag, command and payload, exactly if it fits the limit of the receiver; otherwise the result is an error |
| `Transport.FailsExactly` | app/src/main/cpp/ncam/module-cccam.c:776-876 | a reception fails exactly if the buffer cannot take a header, or the stream ends before the header or the payload it announces; a buffer too small takes nothing |
| `Transport.SendKeepsSync` | app/src/main/cpp/ncam/module-cccam.c:878-962 | a send keeps the wire the encryption, under the block of the receiver, of the messages not yet received |
| `Transport.ReceiveKeepsSync` | app/src/main/cpp/ncam/module-cccam.c:776-876 | a receive keeps it too, and takes exactly one message off |
| `Transport.SessionDelivers` | app/src/main/cpp/ncam/module-cccam.c:776-962 | over every run of sends and receives the messages received are the first ones sent, unchanged and in order, and the two blocks agree once the wire is empty |
| `Transport.CcData.CmdSend` | app/src/main/cpp/ncam/module-cccam.c:878-962 | puts exactly the encrypted frame (or, without a header, the encrypted bytes) on the wire |
| `Transport.CcData.MsgRecv` | app/src/main/cpp/ncam/module-cccam.c:776-876 | result, buffer, block and what is left on the wire are those of the specified reception, for short streams and messages that are too long as well |
| `Login.LoginMirrors` | app/src/main/cpp/ncam/module-cccam.c:4406-4507 | if the first account of the name has the password, server and client end with client ENCRYPT block = server DECRYPT block and client DECRYPT block = server ENCRYPT block, the account found is that one, and the client accepts the acknowledgement |
| `Login.RightPasswordIsFound` | app/src/main/cpp/ncam/module-cccam.c:4406-4439 | the account loop stops at the first account of the name if it has the password, with the block advanced by password and marker |
| `Login.LetInExactly` | app/src/main/cpp/ncam/module-cccam.c:4379-4507 | for all bytes and accounts: a client is let in exactly if it has sent everything, its name is printable, and the six bytes open an account of the name that may enter, each failed try garbling them for the next; where they open none it is refused with -2, and with -1, -2 or -3 where it sent too little or an unprintable name |
| `Login.LoopDecides` | app/src/main/cpp/ncam/module-cccam.c:4406-4439 | the account loop stops at the first account of the name that the six bytes, as garbled so far, open |
| `Login.UnlocksExactly` | app/src/main/cpp/ncam/module-cccam.c:4425-4436 | only the marker encrypted under a password reads as the marker with it |
| `Login.PasswordDecides` | app/src/main/cpp/ncam/module-cccam.c:4406-4457 | with one account of the name its password decides, and a wrong one is refused with -2 |
| `Login.StrangersRefused` | app/src/main/cpp/ncam/module-cccam.c:4441-4457 | a name without account is refused with -2 |
| `Login.NamesMatchExactly` | app/src/main/cpp/ncam/module-cccam.c:4408-4418 | names match exactly if they are equal, or have the same first twenty characters |
| `Login.AcknowledgedExactly` | app/src/main/cpp/ncam/module-cccam.c:4808-4831 | the client goes on exactly if the twenty bytes begin with CCcam encrypted under its own block |
| `Login.SeedMixed` | app/src/main/cpp/ncam/module-cccam.c:134-148 | the sixteen bytes that are digested, one by one |
| `Login.OwnPasswordDecides` | app/src/main/cpp/ncam/module-cccam.c:4795-4811 | a client that sends its own 46 bytes is let in exactly if the marker under its password is the marker under that of the account |
| `Login.NameFieldReadsBack` | app/src/main/cpp/ncam/module-cccam.c:4797-4800 | the name read from the padded field is the name sent, cut to twenty characters |
| `Login.XorInPlace` | app/src/main/cpp/ncam/module-cccam.c:134-148 | mixes the marker into the first sixteen bytes and leaves the rest alone |
| `Login.KeyExchange` | app/src/main/cpp/ncam/module-cccam.c:4317-4326 | the two key schedules and the two passes over each other's input give the specified keys; both ends run the same steps with the blocks exchanged |
| `Login.ServerSeed` | app/src/main/cpp/ncam/module-cccam.c:4306-4311 | twelve random bytes and their four check bytes |
| `Login.ClientLogin` | app/src/main/cpp/ncam/module-cccam.c:4795-4811 | the three messages of the client are the specified 46 bytes, and its block the specified one |
| `Login.CheckAccounts` | app/src/main/cpp/ncam/module-cccam.c:4406-4439 | the account loop, its restored block and its in-place decryption compute the specified attempt |
| `Login.ServerLogin` | app/src/main/cpp/ncam/module-cccam.c:4333-4507 | the reading of the 46 bytes by the server: proof, name, accounts, verdict and block |
| `Login.ExchangeKeys` | app/src/main/cpp/ncam/module-cccam.c:4306-4326 | after the seed the blocks of the two ends mirror each other |
| `Login.Handshake` | app/src/main/cpp/ncam/module-cccam.c:4277-4507 | a whole login over two wires ends accepted on both sides with mirrored blocks |
| `Cards.FindProv` | app/src/main/cpp/ncam/module-cccshare.c:707-713 | the inner provider loop finds a provider exactly if it is listed |
| `Cards.NumSameProviders` | app/src/main/cpp/ncam/module-cccshare.c:813-838 | counts the entries of the first card whose provider the second card has |
| `Cards.CompareProviders` | app/src/main/cpp/ncam/module-cccshare.c:844-868 | the comparison loop computes what the two lemmas below are about |
| `Cards.EqualProvidersIsSetEquality` | app/src/main/cpp/ncam/module-cccshare.c:844-868 | on a first list without repetitions, equal means: same length and same set of providers |
| `Cards.EqualProvidersExactly` | app/src/main/cpp/ncam/module-cccshare.c:844-868 | equality of providers decides equality of sets against every second list exactly if the first list repeats no provider |
| `Cards.EqualProvidersNotSymmetric` | app/src/main/cpp/ncam/module-cccshare.c:844-868 | with a repeated provider it does not: a pair of lists is equal one way round only |
| `Cards.AddProvidersUnites` | app/src/main/cpp/ncam/module-cccshare.c:697-718 | merging providers gives exactly the union |
| `Cards.AddProvidersDistinct` | app/src/main/cpp/ncam/module-cccshare.c:697-718 | merging never introduces a repetition |
| `Cards.MergedLength` | app/src/main/cpp/ncam/module-cccshare.c:697-718 | merging a list without repetitions adds as many providers as are not counted as shared |
| `Cards.AddProvidersFixpoint` | app/src/main/cpp/ncam/module-cccshare.c:697-718 | merging what is there already changes nothing |
| `Cards.AddProvidersCopies` | app/src/main/cpp/ncam/module-cccshare.c:697-718 | a list without repetitions is copied in order |
| `Cards.AddNodesCopies` | app/src/main/cpp/ncam/module-cccshare.c:726-751 | a path without repetitions is copied in order, and its first node stays first |
| `Cards.AddNodesUnites` | app/src/main/cpp/ncam/module-cccshare.c:726-751 | adding a path to another loses no node, invents none and repeats none |
| `Cards.AddCardProviders` | app/src/main/cpp/ncam/module-cccshare.c:697-753 | the two loops give the merged lists, and report a change exactly if there was one |
| `Cards.CopyIsSameCard` | app/src/main/cpp/ncam/module-cccshare.c:762-786 | a copy of a card is the same card to same_card |
| `Cards.MergesServices` | app/src/main/cpp/ncam/module-cccshare.c:881-932 | what merging does to the services of a card: which good ids and which blocks it has afterwards, in each of the three cases, as sets of what was there and what the other card offers |
| `Cards.EqualIfOneFitsBoth` | app/src/main/cpp/ncam/module-cccam.c:368-373 | two service ids count as equal exactly if some service with a channel and a length fits both, where 0 stands for any |
| `Cards.EqualBlocks` | app/src/main/cpp/ncam/module-cccam.c:379-384 | two blocks count as equal exactly if their ids do and some end fits both |
| `Cards.CopiesGoodSids` | app/src/main/cpp/ncam/module-cccshare.c:649-671 | a copied card has of the good ids one for each that equal each other, and no two that are equal |
| `Cards.CopiesBadSids` | app/src/main/cpp/ncam/module-cccshare.c:673-695 | likewise for its blocks |
| `ServerList.AddAllDeduplicates` | app/src/main/cpp/ncam/module-cccshare.c:990-1076 | in default mode, and with MINIMIZE_HOPS where no card offered repeats a provider, after any sequence of adds every class offered is listed exactly once, with the least hop count offered for it, and nothing else is listed |
| `ServerList.OfferedTwice` | app/src/main/cpp/ncam/module-cccshare.c:990-1076 | with MINIMIZE_HOPS a card offered twice to be copied is listed once exactly if it repeats no provider |
| `ServerList.HopsDeduplicatesExactly` | app/src/main/cpp/ncam/module-cccshare.c:990-1076 | with MINIMIZE_HOPS every sequence of copies from a stock of cards leaves a list without duplicates exactly if no card of the stock repeats a provider |
| `ServerList.AddAllAccounts` | app/src/main/cpp/ncam/module-cccshare.c:934-1081 | in every mode, after any sequence of adds, every card handed over for good and every copy made is listed or released, never both and never twice |
| `ServerList.AddAllMerges` | app/src/main/cpp/ncam/module-cccshare.c:944-987 | with MINIMIZE_CAID the providers listed for a class are exactly the union of those offered for it, and no card passes CS_MAXPROV if none offered does |
| `ServerList.MergesIfFits` | app/src/main/cpp/ncam/module-cccshare.c:944-960 | a card that repeats no provider is merged exactly into a listed card of its class with which it stays within CS_MAXPROV |
| `ServerList.OnlyWhereAsked` | app/src/main/cpp/ncam/module-cccshare.c:940-996 | which of the three branches a configuration selects; none but the default one where cards are forwarded as they came |
| `ListedCards.FirstLeastIsListed` | app/src/main/cpp/ncam/module-cccshare.c:990-1076 | in default mode, and with MINIMIZE_HOPS where no card offered repeats a provider, whatever is offered: each listed card is the first of its class with the least hop count, unchanged but for its services and its groups, and these are the groups of all offers of the class from it on |
| `ListedCards.AllGathered` | app/src/main/cpp/ncam/module-cccshare.c:944-987 | with MINIMIZE_CAID each listed card is one that was offered, alone, or merged and then without a path; its groups were offered for its class; all groups and providers of every offer are together in one listed card |
| `ListedCards.OthersKeepOrder` | app/src/main/cpp/ncam/module-cccshare.c:934-1081 | the cards that do not match keep their order; the one for the match stands in its place, or last where the match was first and had more hops |
| `ListedCards.DuplicatesCounted` | app/src/main/cpp/ncam/module-cccshare.c:934-1081 | in every mode the duplicate counter and the length of the list add up to the number of offers |
| `ServerList.AddOwns` | app/src/main/cpp/ncam/module-cccshare.c:934-1081 | one add makes the list answer for the card handed over, or for the copy where one is made; a card to be copied that is merged adds none |
| `ServerList.CardList.FindMatch` | app/src/main/cpp/ncam/module-cccshare.c:946-960 | each branch's iteration stops at the first card it looks for |
| `ServerList.CardList.AddCardToServerlist` | app/src/main/cpp/ncam/module-cccshare.c:934-1082 | list, released cards and duplicate counter after one call, and when it reports a change |
| `CardWire.CardRoundTrip` | app/src/main/cpp/ncam/module-cccam.c:2446-2596 | for every message that fits, read_card of write_card gives the same ids, caid, hop, reshare, serial, providers in order, service ids in extended form, and the nodes followed by the own one, whatever follows in the buffer, exactly if every provider has 24 bits and none is the Betacrypt placeholder |
| `CardWire.PlaceholdersNumbered` | app/src/main/cpp/ncam/module-cccam.c:2500-2530 | with providers of 24 bits, whatever they are, what arrives is the announced card with each Betacrypt placeholder replaced by its place in the list |
| `CardWire.PathReadsBack` | app/src/main/cpp/ncam/module-cccshare.c:246-263 | path, hop and reshare arrive for every card that fits, whatever its providers are |
| `CardWire.TruncationNoticed` | app/src/main/cpp/ncam/module-cccam.c:2446-2596 | a message cut short is refused, except where it ends right before its node list |
| `CardWire.WriteCard` | app/src/main/cpp/ncam/module-cccshare.c:125-265 | fills the buffer with exactly the encoded card, counters included, and returns its length, with or without a service table behind the card |
| `CardWire.PutList` | app/src/main/cpp/ncam/module-cccshare.c:145-262 | a list with its counter further up in the buffer |
| `CardWire.CollectSids` | app/src/main/cpp/ncam/module-cccshare.c:214-243 | at most 200 good ids and at most 200 of the bad ids that are blocked for good, in order |
| `CardWire.CollectTableSids` | app/src/main/cpp/ncam/module-cccshare.c:164-212 | for a card with a service table: at most 240 ids of the table, and at most 240 ids of the chosen ones among the first 128 tables that name the CAID, in order |
| `CardWire.ExcludedServices` | app/src/main/cpp/ncam/module-cccshare.c:164-243 | which services an announcement excludes: of a card of its own the ids blocked for good, of one with a service table the ids of the chosen tables among the first 128 that name its CAID, all of them unless the list is full; none without extended messages |
| `CardWire.ServedServices` | app/src/main/cpp/ncam/module-cccshare.c:164-243 | and which it names as served: the first 200 good ids, or the first 240 of its table |
| `CardWire.ParseCard` | app/src/main/cpp/ncam/module-cccam.c:2446-2596 | reads nothing past the given length and returns the specified card, or nothing |
| `CardWire.ParseProviders` | app/src/main/cpp/ncam/module-cccam.c:2500-2520 | the provider loop, with the Betacrypt placeholder replaced by the position |
| `CardWire.ParseNodes` | app/src/main/cpp/ncam/module-cccam.c:2573-2593 | the node loop |
| `Forwarding.ForwardingLowersReshare` | app/src/main/cpp/ncam/module-cccshare.c:292-350 | unless the client ignores reshare levels, sending a received card on strictly lowers its level, also where the conversion to a signed byte wraps |
| `Forwarding.AnnouncedReshareIsSmall` | app/src/main/cpp/ncam/module-cccshare.c:299-328 | a level that is announced fits a signed byte |
| `Forwarding.LevelIsLeast` | app/src/main/cpp/ncam/module-cccshare.c:299-328 | the level announced is the least of its bounds: the level of the client always, for cards by service user nothing else; else also that of the reader, and, where levels are minded, that of the card, less one for a received one |
| `Forwarding.AcceptedExactly` | app/src/main/cpp/ncam/module-cccshare.c:292-350 | a card goes to a client exactly if they share a group or the card is in none, the filters of the client pass it, it is within its hops and has not been at its node, and each level that bounds it is 0 to 127 |
| `Forwarding.PatchedReshare` | app/src/main/cpp/ncam/module-cccshare.c:333-336 | overwriting byte 11 of the message is announcing another level |
| `ShareUpdate.UpdateExact` | app/src/main/cpp/ncam/module-cccshare.c:1164-1543 | Held is what a client has been told: the ids announced to it and not withdrawn. A client told what a full resend would tell it has, after an update, been told what a full resend would tell it exactly if its verdict on the cards that stay has not changed |
| `ShareUpdate.RunInStep` | app/src/main/cpp/ncam/module-cccshare.c:1099-1567 | what a client in step has been told stays what a full resend would tell it, over every run of updates, connects and disconnects of others while its verdicts on staying cards do not change |
| `ShareUpdate.AcceptingAllHoldsAll` | app/src/main/cpp/ncam/module-cccshare.c:1099-1567 | a client that accepts every card has been told, after any run, exactly the ids of the share list |
| `ShareUpdate.StaleCardStays` | app/src/main/cpp/ncam/module-cccshare.c:1105-1121 | where a surviving card moves out of the hop limit of a client, the client is not told, although a full resend would leave the card out |
| `ShareUpdate.WithdrawnFirst` | app/src/main/cpp/ncam/module-cccshare.c:1526-1538 | an update sends each client its withdrawals first and the new cards after them |
| `ShareSurvival.SurvivorKeepsId` | app/src/main/cpp/ncam/module-cccshare.c:1105-1121 | card k of the new list is the card offered; if there are more live listed cards the same as it than earlier offered ones, it has the id and time of the next of them, and else no id, or a new one |
| `ShareSurvival.FirstKeepsId` | app/src/main/cpp/ncam/module-cccshare.c:1105-1121 | the first live listed card the same as an offered one hands on its id, unless an earlier offered card is the same |
| `ShareSurvival.ClassKeepsIds` | app/src/main/cpp/ncam/module-cccshare.c:1105-1121 | of each class of same cards as many ids survive as there are both live listed and offered cards, in order, and the cards beyond that have none, or new ones |
| `ShareSurvival.UpdateTells` | app/src/main/cpp/ncam/module-cccshare.c:1496-1543 | exactly what an update tells each client, in order, read off the list before and the list after: the withdrawals of the cards whose id is gone, then the cards with a new id that it accepts |
| `ShareSurvival.SurvivorUntold` | app/src/main/cpp/ncam/module-cccshare.c:1496-1543 | a card that survives is neither withdrawn from nor announced to anyone |
| `ShareUpdate.IdsSurvive` | app/src/main/cpp/ncam/module-cccshare.c:1105-1121 | a card that takes over keeps the id, one that does not gets an id that was not handed out before, as long as the counter has not wrapped |
| `ShareHistory.NeverReused` | app/src/main/cpp/ncam/module-cccshare.c:292-350 | over every run from the empty list, ids listed or announced at any time are ids handed out, and no two different cards, present or long withdrawn, ever had the same one |
| `ShareHistory.IdsNameOneCard` | app/src/main/cpp/ncam/module-cccshare.c:292-350 | cards shown at any two moments of a run have the same id only if they are the same card |
| `ShareHistory.AlwaysNumbered` | app/src/main/cpp/ncam/module-cccshare.c:1099-1567 | after every run from the empty list no two listed cards have the same id |
| `ShareHistory.ToldOnlyValid` | app/src/main/cpp/ncam/module-cccshare.c:537-627 | over every run a client is only told of cards that share a group with it, or are in none, that its filters let through, that are within its hops, have not been at its node, and, where it minds levels, may be passed on |
| `ShareHistory.SilentOnceGone` | app/src/main/cpp/ncam/module-cccshare.c:353-445 | over every run a client that has disconnected is told nothing more |
| `ShareHistory.WholeRunInStep` | app/src/main/cpp/ncam/module-cccshare.c:1099-1567 | from the empty list: a client that connects somewhere in a run, and whose verdicts on staying cards do not change after that, has in the end been told exactly what a full resend would tell it |
| `ShareHistory.WholeRunHoldsAll` | app/src/main/cpp/ncam/module-cccshare.c:1099-1567 | from the empty list: a client that accepts the list it finds and every card offered after that has in the end been told exactly the ids of the share list |
| `ReaderView.ListsExactly` | app/src/main/cpp/ncam/module-cccam.c:2948-3077 | the reader at the other end lists, after every message, exactly the ids it has been told of, if and only if its filters let every announced card in, and no two cards announced and not withdrawn at one time agree in remote id, CAID, announced serial and first node of the announced path |
| `ReaderView.ReaderInStep` | app/src/main/cpp/ncam/module-cccam.c:2948-3077 | the reader of a client in step lists exactly what a full resend would give it, if it loses no card in that way |
| `ReaderView.ReaderListsAll` | app/src/main/cpp/ncam/module-cccam.c:2948-3077 | from the empty list: where the client accepts every card and its reader loses none, the reader lists in the end exactly the ids of the share list |
| `ReaderView.GroupsCollapse` | app/src/main/cpp/ncam/module-cccam.c:3026-3034 | a run in which it does lose one: a card listed twice for two groups is one card to the reader, so that after the first is withdrawn it lists nothing, though it has been told of the second |
| `ReaderView.AlikeIsSame` | app/src/main/cpp/ncam/module-cccam.c:3026-3034 | two announced cards are the same card to the reader exactly if they agree in these four things |
| `ReaderView.AdmittedExactly` | app/src/main/cpp/ncam/module-cccam.c:2948-3018 | the filters of the reader, read off the card that is announced |
| `ReaderView.SecretsWithheld` | app/src/main/cpp/ncam/module-cccshare.c:267-290 | serial number and shared addresses reach a reader exactly if the reader the card came through is on the AU list of its account |
| `ShareUpdate.ConnectInStep` | app/src/main/cpp/ncam/module-cccshare.c:1545-1567 | a client that connects has been told exactly what a full resend would tell it |
| `ShareUpdate.ConnectKeepsInStep` | app/src/main/cpp/ncam/module-cccshare.c:1545-1567 | and the others stay in step |
| `ShareUpdate.CompareCovers` | app/src/main/cpp/ncam/module-cccshare.c:1138-1147 | no card of the former list is forgotten: it goes on or is left over to be withdrawn |
| `ShareUpdate.CompareKeepsIds` | app/src/main/cpp/ncam/module-cccshare.c:1105-1121 | the ids left over and the ids that go on are together the ids there were, each as often, and are pairwise different |
| `ShareUpdate.TakenOverInTime` | app/src/main/cpp/ncam/module-cccshare.c:1089-1121 | an entry takes over from a listed card only if it is the same card and has not timed out |
| `ShareUpdate.DifferentBucketsDiffer` | app/src/main/cpp/ncam/module-cccshare.c:1105-1121 | cards in different buckets are never the same card, so the buckets can be read as one list |
| `ShareUpdate.ShareServer.SendCardToClient` | app/src/main/cpp/ncam/module-cccshare.c:292-350 | numbers the card if it has no id yet, puts it in the outbox of the client exactly if the client accepts it, and changes nothing else |
| `ShareUpdate.ShareServer.SendCardToAllClients` | app/src/main/cpp/ncam/module-cccshare.c:392-406 | one card to every client in order, with one id for all |
| `ShareUpdate.ShareServer.SendRemoveCardToClients` | app/src/main/cpp/ncam/module-cccshare.c:408-448 | exactly the connected clients the card is valid for are told to drop it |
| `ShareUpdate.ShareServer.FindReportedCard` | app/src/main/cpp/ncam/module-cccshare.c:1105-1121 | takes the first live reported card that is the same off the list and hands on its id and timeout |
| `ShareUpdate.ShareServer.WithdrawAll` | app/src/main/cpp/ncam/module-cccshare.c:492-530 | withdraws every card left over from every client |
| `ShareUpdate.ShareServer.UpdateCardList` | app/src/main/cpp/ncam/module-cccshare.c:1496-1543 | compare, withdraw, announce: the new share list, id counter and outboxes are the specified ones |
| `ShareUpdate.ShareServer.ReportCards` | app/src/main/cpp/ncam/module-cccshare.c:1545-1567 | a new client gets the whole list |
| `ReaderTable.SessionConsistent` | app/src/main/cpp/ncam/module-cccam.c:2598-3077 | in every state of a session ids, cards and addresses are pairwise different, every class count equals the number of listed cards of the class, last_emm_card and every pending pointer is null or listed, and no two requests under way have one index |
| `ReaderTable.AnsweringConsistent` | app/src/main/cpp/ncam/module-cccam.c:3229-3285 | an answer keeps that, and ends the request it belongs to |
| `ReaderTable.AnswerMovesCard` | app/src/main/cpp/ncam/module-cccam.c:3229-3285 | a bad answer ends its request and puts the card last, all others staying in order, and no request points at that card any more; any other answer ends its request and nothing else |
| `ReaderTable.AdmitBinds` | app/src/main/cpp/ncam/module-cccam.c:2987-3012 | what a card taken in is bound by when it is passed on: the level of the reader, or the global one where none is set, and its groups |
| `ReaderTable.SendingConsistent` | app/src/main/cpp/ncam/module-cccam.c:1917-1934 | so does a request that is sent, new or in the place of an older one |
| `ReaderTable.NewCardConsistent` | app/src/main/cpp/ncam/module-cccam.c:3019-3077 | an announced card keeps that: it is listed and counted, or dropped if a listed card has its id or is the same card |
| `ReaderTable.RemoveAtConsistent` | app/src/main/cpp/ncam/module-cccam.c:2607-2650 | removing one card keeps it |
| `ReaderTable.RemovingForgets` | app/src/main/cpp/ncam/module-cccam.c:2607-2625 | and forgets the pointers to that card and no others |
| `ReaderTable.RemoveFromConsistent` | app/src/main/cpp/ncam/module-cccam.c:2598-2658 | removing an id keeps it, and leaves no card with the id |
| `ReaderTable.MoveToEndConsistent` | app/src/main/cpp/ncam/module-cccam.c:2660-2681 | moving a card to the end keeps it |
| `ReaderTable.ReaderSession.ReadAndFilter` | app/src/main/cpp/ncam/module-cccam.c:2948-3018 | the filters of an announcement, in the order of the code |
| `ReaderTable.ReaderSession.MsgNewCard` | app/src/main/cpp/ncam/module-cccam.c:2948-3077 | the handling of an announcement: table, counts and pointers |
| `ReaderTable.ReaderSession.DropPending` | app/src/main/cpp/ncam/module-cccam.c:665-694 | with null_only, drops exactly the pending entries of the card |
| `ReaderTable.ReaderSession.NullPending` | app/src/main/cpp/ncam/module-cccam.c:665-694 | without it, clears exactly their pointers and keeps the entries |
| `ReaderTable.ReaderSession.CcCardRemoved` | app/src/main/cpp/ncam/module-cccam.c:2598-2658 | removes every card of the id, with its counts and pointers |
| `ReaderTable.ReaderSession.MoveCardToEnd` | app/src/main/cpp/ncam/module-cccam.c:2660-2681 | moves the card to the end and forgets it in the pending entries |
| `ReaderTable.ReaderSession.SendRequest` | app/src/main/cpp/ncam/module-cccam.c:1917-1934 | a request takes the place of the one with its index, or goes to the end |
| `ReaderTable.ReaderSession.GetExtendedEcmIdx` | app/src/main/cpp/ncam/module-cccam.c:592-620 | finds the first request with the index, and takes it off the list if told to |
| `ReaderTable.ReaderSession.AnswerReceived` | app/src/main/cpp/ncam/module-cccam.c:3567-3622 | an answer takes its request off the list, a bad one moves the card to the end |
| `ShareNetwork.LoopFree` | app/src/main/cpp/ncam/module-cccshare.c:125-350 | over all runs of any network, in every mode: the path of a received card has no node twice and not the holder, and is shorter than the number of nodes |
| `ShareNetwork.PropagationEnds` | app/src/main/cpp/ncam/module-cccshare.c:292-350 | in every mode, where nobody ignores reshare levels, level and path length of a received card add up to at most 128, so no card travels further |
| `ShareNetwork.LevelsAllowed` | app/src/main/cpp/ncam/module-cccshare.c:299-328 | over all runs no received card has a level above what the account of its holder allows at the node it came from |
| `ShareNetwork.NeverTwice` | app/src/main/cpp/ncam/module-cccam.c:3020-3042 | over all runs a node never holds the same card twice from one reader, nor two cards of one id |
| `ShareNetwork.KeptHopsMatch` | app/src/main/cpp/ncam/module-cccam.c:2948-3077 | the hop count of a received card is its path length above the count its origin started with, over all runs of a network with KeepsHops: no other node has a card for a node that merges by CAID, or the two are alone and that node starts its cards at 0 |
| `ShareRuns.HopsMatchExactly` | app/src/main/cpp/ncam/module-cccshare.c:980-982 | and exactly in those networks |
| `ShareRuns.ThirdNodeMiscounts` | app/src/main/cpp/ncam/module-cccshare.c:934-1082 | a run in which a node that merges by CAID copies a card and passes it on with its path, but without its hops |
| `ShareRuns.MergedCardsComeBack` | app/src/main/cpp/ncam/module-cccshare.c:980-982 | a run in which two cards merged by CAID go back to the node they came from and are taken in there, at hop 1 |
| `ShareNetwork.FitsExactly` | app/src/main/cpp/ncam/module-cccshare.c:125-265 | how long an announcement is, and so exactly which listed cards fit a message |
| `ShareRuns.MergedFitsPlain` | app/src/main/cpp/ncam/module-cccshare.c:960-987 | without extended messages a merged card within CS_MAXPROV always fits |
| `ShareRuns.MergedTooLong` | app/src/main/cpp/ncam/module-cccshare.c:960-987 | with them, two cards that fit can be merged within CS_MAXPROV into one that does not |
| `ShareNetwork.AlwaysOk` | app/src/main/cpp/ncam/module-cccam.c:2948-3077 | the invariant behind these, for received cards, share lists and announcements under way |
| `ShareNetwork.TakenIn` | app/src/main/cpp/ncam/module-cccam.c:2948-3077 | what the receiving node takes from a message has the sender on its path and is within the invariant |
| `ShareNetwork.ForwardOk` | app/src/main/cpp/ncam/module-cccshare.c:537-627 | a card that is valid for a client has not been at its node, and is announced within the invariant |
| `ShareNetwork.AddShares` | app/src/main/cpp/ncam/module-cccshare.c:934-1082 | putting a card into the share list, copied or merged in any mode, keeps what the invariant says of it |
| `CwCycle.StagesAlwaysOk` | app/src/main/cpp/ncam/module-cw-cycle-check.c:295-578 | in every reachable list every entry has stage 0 to 4, and its next half is known exactly in stage 3 |
| `CwLearning.KnownWereTaught` | app/src/main/cpp/ncam/module-cw-cycle-check.c:447-612 | in every reachable list, where no cycle information of requests is used: every channel that is known, or waits in stage 4, was taught by three requests stored in a row, each about as long after the one before as that one was, the last with exactly one half of its word new; what a channel compares the next interval with is its last one; and the repeats of stage 4 stay within 13 |
| `CwLearning.FirstRequest` | app/src/main/cpp/ncam/module-cw-cycle-check.c:593-652 | the first request of a channel is answered 6, or 8 where it brings cycle information and the list has room; if it has, it gets a locked entry in front, known by that information if it is used, and else unlearned; words that are not worth checking are answered 3 |
| `CwLearning.StageMoves` | app/src/main/cpp/ncam/module-cw-cycle-check.c:447-560 | exactly which stage an entry is in after a request past its lock: up where the interval is near the last one, down where not, from stage 2 or 4 to 3 exactly if one half of the word is new |
| `CwLearning.StageTakesNote` | app/src/main/cpp/ncam/module-cw-cycle-check.c:447-578 | and what goes with it: cycle time, next half, lock, repeats and delay |
| `CwLearning.LockHolds` | app/src/main/cpp/ncam/module-cw-cycle-check.c:447-566 | while the lock holds nothing is learned and nothing is stored |
| `CwLearning.LateGivesUp` | app/src/main/cpp/ncam/module-cw-cycle-check.c:425-578 | a word that comes too late for a known channel is answered 3 and the channel given up, for stage 4 exactly if entries are kept and this one is not too old |
| `CwLearning.ToldDecides` | app/src/main/cpp/ncam/module-cw-cycle-check.c:268-294 | what cycle information of the request does: another word is answered 8 and stored, and the channel is known by it; the same word is answered 2 or 4 by the cycle time the request brings |
| `CwCycle.OkRunsAlternate` | app/src/main/cpp/ncam/module-cw-cycle-check.c:295-376 | over any run in which the requests stored for a channel are all answered "cycle OK", whatever else is asked in between (repeats of a word, words that are refused, other channels, other lengths) and whenever the list is cleaned, the words stored agree on exactly one half from each to the next, and the half alternates |
| `CwCycle.SteadyChannelsAreLearned` | app/src/main/cpp/ncam/module-cw-cycle-check.c:190-686 | a channel whose word changes at a steady pace, with alternating halves and in enough bytes, is learned within five requests, whatever other channels do in between and as long as no cleanup finds it too old, and from the sixth on every word of it is answered "cycle OK" |
| `CwCycle.LearnedChannelJudges` | app/src/main/cpp/ncam/module-cw-cycle-check.c:190-686 | once a steady channel is learned, a word that comes in time is answered "cycle OK" exactly if it goes on alternating, and any other word is answered 1, 2, 4 or 5 |
| `CwCycle.SteadyRunKnows` | app/src/main/cpp/ncam/module-cw-cycle-check.c:447-680 | what the newest entry of such a channel knows after each request: the period from the second on, the half that stays next from the fifth on |
| `CwCycle.LearnsOne` | app/src/main/cpp/ncam/module-cw-cycle-check.c:295-578 | one request of such a channel takes its entry one stage further, or keeps it in stage 3, and is stored |
| `CwCycle.OtherStep` | app/src/main/cpp/ncam/module-cw-cycle-check.c:215-232 | a check of another channel changes nothing of the newest entry of this one but its mark |
| `CwCycle.UnstoredKeepsNewest` | app/src/main/cpp/ncam/module-cw-cycle-check.c:215-232 | so does a check that stores nothing |
| `CwCycle.CleanupKeepsNewest` | app/src/main/cpp/ncam/module-cw-cycle-check.c:145-187 | neither does a cleanup within the keep time |
| `CwCycle.OkMeansAlternation` | app/src/main/cpp/ncam/module-cw-cycle-check.c:295-376 | "cycle OK" means: the half due to stay stayed, the other changed, and it is the turn of the other half next |
| `CwCycle.OkExactlyOnAlternation` | app/src/main/cpp/ncam/module-cw-cycle-check.c:295-376 | inside the window, without byte counting, it is answered exactly then |
| `CwCycle.CheckedExactly` | app/src/main/cpp/ncam/module-cw-cycle-check.c:121-154 | a word is checked exactly if it was found and is not all zero, BISS excepted, and for Videoguard only if neither half is |
| `CwCycle.OtherWordAnswer` | app/src/main/cpp/ncam/module-cw-cycle-check.c:295-445 | another word inside the window: 0 exactly if it does not break the cycle; else 4 if a remembered answer to the request brought it and old words are not dropped, 2 if there is one otherwise, 5 from an allowed fallback, and 1, which refuses it, from anywhere else |
| `CwCycle.SameWordAnswer` | app/src/main/cpp/ncam/module-cw-cycle-check.c:295-317 | the same word inside the window: 2 if it comes a whole cycle later and such words are dropped, else 4 |
| `CwCycle.SameBytesCounts` | app/src/main/cpp/ncam/module-cw-cycle-check.c:89-119 | the bytes counted are the places at which two halves agree |
| `CwCycle.ShownExactlyWhenOk` | app/src/main/cpp/ncam/module-cw-cycle-check.c:355-373 | the request learns the next half exactly on "cycle OK", and the cycle time exactly if it is below 128 and the channel not 0100:00006A |
| `CwCycle.SizeAlwaysCounts` | app/src/main/cpp/ncam/module-cw-cycle-check.c:145-187 | cw_cc_list_size is always the number of nodes not marked old |
| `CwCycle.AlwaysNewestFirst` | app/src/main/cpp/ncam/module-cw-cycle-check.c:593-680 | with requests in order of time the list is newest first |
| `CwCycle.CleanupExact` | app/src/main/cpp/ncam/module-cw-cycle-check.c:145-187 | on such a list a cleanup that runs keeps exactly the nodes within the keep time |
| `CwCycle.CleanupRests` | app/src/main/cpp/ncam/module-cw-cycle-check.c:146-151 | within two minutes of the last one a cleanup does nothing |
| `CwCycle.RingsAlwaysHold` | app/src/main/cpp/ncam/module-cw-cycle-check.c:654-676 | every node of every reachable list holds the last 15 answers of its chain, each in its slot |
| `CwCycle.LearnNextRange` | app/src/main/cpp/ncam/module-cw-cycle-check.c:488-498 | the next half is learned exactly if one half changed and the other did not |
| `CwCycle.CountCwPart` | app/src/main/cpp/ncam/module-cw-cycle-check.c:89-119 | counts the equal bytes of the half that must change |
| `CwCycle.HalfThatStays` | app/src/main/cpp/ncam/module-cw-cycle-check.c:319-347 | the byte loop says which half stayed, if it is the right one |
| `CwCycle.SearchRing` | app/src/main/cpp/ncam/module-cw-cycle-check.c:380-408 | finds the first remembered answer with the hash of the request |
| `CwCycle.CompareHalves` | app/src/main/cpp/ncam/module-cw-cycle-check.c:488-498 | the three assignments learn the next half |
| `CwCycle.RunStages` | app/src/main/cpp/ncam/module-cw-cycle-check.c:447-578 | the stage machine, its lock time and delay, as assignments |
| `CwCycle.CheckCopy` | app/src/main/cpp/ncam/module-cw-cycle-check.c:261-578 | return code, copy, and cycle information for the request |
| `CwCycle.CwCycleList.FindNode` | app/src/main/cpp/ncam/module-cw-cycle-check.c:215-232 | the first node of the channel |
| `CwCycle.CwCycleList.CheckCwCycle` | app/src/main/cpp/ncam/module-cw-cycle-check.c:190-686 | list, counter and result after a check |
| `CwCycle.CwCycleList.CleanupCwCycle` | app/src/main/cpp/ncam/module-cw-cycle-check.c:145-187 | list, counter and cleaning time after a cleanup |
| `CachePush.PushRoundTrip` | app/src/main/cpp/ncam/module-cccam-cacheex.c:1152-1566 | push_in of the buffer of push_out gives the answer sent with the sender put in front of its path, exactly if the filters admit it and the path is within the limit |
| `CachePush.CycleInfoSurvives` | app/src/main/cpp/ncam/module-cccam-cacheex.c:1208-1215 | cycle time and next half survive exactly if the time is below 128 and the half known, or there is none |
| `CachePush.ReceivedExactly` | app/src/main/cpp/ncam/module-cccam-cacheex.c:1154-1350 | which return codes can be sent, and every field of the answer as it arrives: cycle information, table id, return code, and the rest unchanged |
| `CachePush.SwapTwice` | app/src/main/cpp/ncam/module-cccam-cacheex.c:22-25 | the byte order of the csp hash is restored |
| `CachePush.PushedIsShort` | app/src/main/cpp/ncam/module-cccam-cacheex.c:1089-1105 | whatever is pushed is below the limit of its kind |
| `CachePush.LgTravelsFurther` | app/src/main/cpp/ncam/module-cacheex.c:506-540 | answers generated locally travel at least as far as others, and no further than ten nodes or what the others may |
| `CachePush.LimitsObeySettings` | app/src/main/cpp/ncam/module-cacheex.c:485-540 | a setting of the reader goes before that of the account, 10 stands where neither says anything, and the limit for local answers is what is set for them, cut to 10 and raised to the other limit |
| `CachePush.PushedExactly` | app/src/main/cpp/ncam/module-cccam-cacheex.c:1081-1150 | an answer is pushed exactly if the peer has a node id, has not been sent it, is not on its path, and the path is shorter than the limit for answers of its kind |
| `CachePush.Connection.CacheexMaxHopLg` | app/src/main/cpp/ncam/module-cacheex.c:506-540 | computes the limit; trimming the stored setting never changes what it means |
| `CachePush.Connection.PushChk` | app/src/main/cpp/ncam/module-cccam-cacheex.c:1081-1150 | says yes exactly if the peer is known, is not on the path, and the path is below the limit |
| `CachePush.WriteHead` | app/src/main/cpp/ncam/module-cccam-cacheex.c:1198-1230 | the first twenty bytes |
| `CachePush.PushOut` | app/src/main/cpp/ncam/module-cccam-cacheex.c:1152-1276 | builds exactly the specified message, or none for other return codes |
| `CachePush.PushIn` | app/src/main/cpp/ncam/module-cccam-cacheex.c:1294-1566 | reads exactly the specified answer |
| `PushNetwork.PushesNeverCycle` | app/src/main/cpp/ncam/module-cccam-cacheex.c:1081-1566 | over every run and any peer graph, the path of a cached answer has no node twice and not the holder, and is within the limits both ends of its last link set for its kind |
| `PushNetwork.AlwaysOk` | app/src/main/cpp/ncam/module-cccam-cacheex.c:1081-1566 | the invariant behind it, for cached answers and messages under way |
| `PushNetwork.TakenIn` | app/src/main/cpp/ncam/module-cccam-cacheex.c:1418-1530 | what a node takes in has one node more on its path, within its own limits |
| `EcmStore.HitsAgree` | app/src/main/cpp/ncam/module-emulator-ecmdb.c:489-510 | for up to 50001 accepted records every hit in the table is what the scan finds, even if loading gave up early |
| `EcmStore.HitsAgreeExactly` | app/src/main/cpp/ncam/module-emulator-ecmdb.c:278-510 | for every file: each hit is what the scan finds exactly if, among the lines there is room for, repeats of requests outside the first 50000 hashes bring no other word |
| `EcmStore.AgreeExactly` | app/src/main/cpp/ncam/module-emulator-ecmdb.c:453-510 | up to 50001 records, if loading went through, table and scan agree on every query, misses too, exactly if the hash tells the requests of the file apart |
| `EcmStore.AllAgreeExactly` | app/src/main/cpp/ncam/module-emulator-ecmdb.c:278-510 | for every file: table and scan agree on every query, misses too, exactly if, among the lines there is room for, the first 50000 hashes tell requests apart and repeats outside them bring no other word, and the lines behind bring no other request |
| `EcmStore.LoadStopsThere` | app/src/main/cpp/ncam/module-emulator-ecmdb.c:354-366 | loading gives up at the first new line that would take the pool past 64 MB, all requests having one length |
| `EcmStore.LoadReadsOff` | app/src/main/cpp/ncam/module-emulator-ecmdb.c:343-385 | the hashes remembered are the first 50000 new ones of the file |
| `EcmStore.UnseenFindLast` | app/src/main/cpp/ncam/module-emulator-ecmdb.c:322-388 | a request whose hash is not among the first 50000 finds the last line with it |
| `EcmStore.SeenFindFirst` | app/src/main/cpp/ncam/module-emulator-ecmdb.c:322-388 | one whose hash is among them finds the first |
| `EcmStore.LateDuplicateShadows` | app/src/main/cpp/ncam/module-emulator-ecmdb.c:343-387 | once 50001 records are in, a repeat of the last request goes in again and shadows the first one |
| `EcmStore.CounterIsShadowed` | app/src/main/cpp/ncam/module-emulator-ecmdb.c:343-387 | a file of 50001 counters and a repeat of the last one is such a file |
| `EcmStore.AcceptedAreFirst` | app/src/main/cpp/ncam/module-emulator-ecmdb.c:322-388 | up to 50001 records, each accepted one is the first line with its request |
| `EcmStore.AcceptedDiffer` | app/src/main/cpp/ncam/module-emulator-ecmdb.c:343-385 | and their hashes differ |
| `EcmStore.LoadCovers` | app/src/main/cpp/ncam/module-emulator-ecmdb.c:322-388 | nothing is accepted that is not in the file; until loading gives up, every usable hash is there |
| `EcmStore.LoadGrows` | app/src/main/cpp/ncam/module-emulator-ecmdb.c:322-388 | later lines never remove or change an accepted record |
| `EcmStore.RangesApart` | app/src/main/cpp/ncam/module-emulator-ecmdb.c:372-374 | the pool ranges of two entries are apart and within what is used |
| `EcmStore.WalkFindsLast` | app/src/main/cpp/ncam/module-emulator-ecmdb.c:489-510 | walking a bucket finds the last accepted record with the request |
| `EcmStore.ScanFinds` | app/src/main/cpp/ncam/module-emulator-ecmdb.c:453-487 | the scan finds exactly the requests of 1 to 256 bytes and the expected length that some line has |
| `EcmStore.Channel.Grow` | app/src/main/cpp/ncam/module-emulator-ecmdb.c:355-366 | doubles the pool up to 64 MB and keeps its bytes |
| `EcmStore.Channel.Insert` | app/src/main/cpp/ncam/module-emulator-ecmdb.c:368-387 | puts the bytes behind the others and the entry in front of its bucket; the bytes used so far stay |
| `EcmStore.Channel.SearchRam` | app/src/main/cpp/ncam/module-emulator-ecmdb.c:489-510 | returns the last accepted record with the request |
| `EcmStore.IsDuplicate` | app/src/main/cpp/ncam/module-emulator-ecmdb.c:343-353 | the loop over the hashes seen |
| `EcmStore.AddLine` | app/src/main/cpp/ncam/module-emulator-ecmdb.c:322-388 | one line of the file |
| `EcmStore.LoadChannelRam` | app/src/main/cpp/ncam/module-emulator-ecmdb.c:278-407 | the table and pool built from a file are those of the specified load |
| `EcmStore.SearchDirect` | app/src/main/cpp/ncam/module-emulator-ecmdb.c:453-487 | the scan returns the first usable line with the request |
| `HandleCache.HandlesAccounted` | app/src/main/cpp/ncam/module-emulator-ecmdb.c:188-275 | over any run: 16 slots, no two for one channel, and every handle opened is in a slot or closed, closed once |
| `HandleCache.EvictionRule` | app/src/main/cpp/ncam/module-emulator-ecmdb.c:202-250 | a slot loses its handle only if it is idle, no slot is empty, and no idle slot has been unused for longer; all other slots stay |
| `HandleCache.OpenResult` | app/src/main/cpp/ncam/module-emulator-ecmdb.c:222-250 | exactly when an open gets no handle; one it gets belongs to the channel and is in use |
| `HandleCache.InUseUntilReleased` | app/src/main/cpp/ncam/module-emulator-ecmdb.c:222-263 | over every run a slot is in use exactly from the last open of its channel to the next release, and carries the time of that open |
| `HandleCache.ReleasingMakesRoom` | app/src/main/cpp/ncam/module-emulator-ecmdb.c:202-263 | with all slots in use an open of another channel gets no handle, and after a release it gets the released slot, whose handle is closed |
| `HandleCache.FileCache.CacheFind` | app/src/main/cpp/ncam/module-emulator-ecmdb.c:188-200 | finds the slot of the channel and touches only its time |
| `HandleCache.FileCache.CacheGetLru` | app/src/main/cpp/ncam/module-emulator-ecmdb.c:202-220 | the first empty slot, or else the oldest idle one before now, or none |
| `HandleCache.FileCache.CacheOpen` | app/src/main/cpp/ncam/module-emulator-ecmdb.c:222-250 | slots, handles opened and closed, and the handle returned |
| `HandleCache.FileCache.CacheRelease` | app/src/main/cpp/ncam/module-emulator-ecmdb.c:252-263 | marks the slot of the channel idle |
| `HandleCache.FileCache.CacheCloseAll` | app/src/main/cpp/ncam/module-emulator-ecmdb.c:265-275 | closes every handle held, once |
| `KeyChains.ChainsAlwaysOk` | app/src/main/cpp/ncam/module-emulator-nemu.c:362-594 | over every run chains hold at most 256 keys, no two of which agree over the shorter length |
| `KeyChains.EqualLengthsDiffer` | app/src/main/cpp/ncam/module-emulator-nemu.c:463-474 | keys of equal length in a chain are pairwise different |
| `KeyChains.UpdateExact` | app/src/main/cpp/ncam/module-emulator-nemu.c:689-713 | emu_update_key returns 0 without change exactly if the chain the key would go to has a key that agrees with it; for providers from 0xFFFF on, 0, and short ones not divisible by 256 |
| `KeyChains.ShortProviderMisled` | app/src/main/cpp/ncam/module-emulator-nemu.c:689-713 | for every other provider that is not so: it reads the entry of the provider shifted to it |
| `KeyChains.UpdateStores` | app/src/main/cpp/ncam/module-emulator-nemu.c:476-519 | otherwise the key is found afterwards at some reference up to 255, and every other key but the last of a full chain stays where it was |
| `KeyChains.SetReplaces` | app/src/main/cpp/ncam/module-emulator-nemu.c:521-543 | for other kinds of keys the new key is afterwards the only one of its provider and name, and no other changes |
| `KeyChains.NamesKept` | app/src/main/cpp/ncam/module-emulator-nemu.c:378-497 | names are kept in capitals and cut to eleven characters |
| `KeyChains.FoundIsThere` | app/src/main/cpp/ncam/module-emulator-nemu.c:596-687 | what emu_find_key finds, cut or padded, agrees with a key of the chain |
| `KeyChains.KeyDataContainer.SetKey` | app/src/main/cpp/ncam/module-emulator-nemu.c:362-594 | the database after storing a key, and the return code |
| `KeyChains.KeyDataContainer.Reserve` | app/src/main/cpp/ncam/module-emulator-nemu.c:545-569 | 64 entries at first, then 16 more at a time; entries stay and keyCount is below keyMax |
| `KeyChains.KeyDataContainer.FindKey` | app/src/main/cpp/ncam/module-emulator-nemu.c:596-687 | walks to the keyRef-th key of the first entry that matches |
| `KeyChains.KeyDataContainer.UpdateKey` | app/src/main/cpp/ncam/module-emulator-nemu.c:689-713 | the search over references ends and the result is the specified one |
| `KeyChains.KeyDataContainer.DeleteKeys` | app/src/main/cpp/ncam/module-emulator-nemu.c:715-750 | empties the container and returns how many entries there were |
| `KeyChains.HasKey` | app/src/main/cpp/ncam/module-emulator-nemu.c:463-474 | the loop that rejects duplicates |
| `KeyChains.Chain` | app/src/main/cpp/ncam/module-emulator-nemu.c:501-519 | the walk to the end of the chain, or to the 255th key, and the replacement there |
| `Camd35.StreamDelivers` | app/src/main/cpp/ncam/module-camd35.c:42-475 | any packets sent back to back come out in order with their checksums right, and nothing of what follows is touched |
| `Camd35.PacketReadsBack` | app/src/main/cpp/ncam/module-camd35.c:175-475 | a packet comes back as the padded and signed message, and is taken off the stream exactly |
| `Camd35.ConsumedExactly` | app/src/main/cpp/ncam/module-camd35.c:319-375 | a packet with a right length field is taken off exactly if its command is not 4 |
| `Camd35.ConsumedIfSized` | app/src/main/cpp/ncam/module-camd35.c:319-375 | whatever its length field says: with enough bytes behind it, a packet is taken off exactly if the size read off it is the size it has |
| `Camd35.DefaultPushSized` | app/src/main/cpp/ncam/module-camd35.c:53-57 | a cache push sent with the default length is sized right exactly if it has less than 256 bytes of data |
| `Camd35.DefaultLengthAgrees` | app/src/main/cpp/ncam/module-camd35.c:53-57 | the length the sender takes if not told agrees with what the receiver reads, except for cache pushes above 255 bytes |
| `Camd35.RequestsAreSized` | app/src/main/cpp/ncam/module-camd35.c:53-58 | a request that is a whole section is sized by its own section length at both ends |
| `Camd35.DecryptsBack` | app/src/main/cpp/ncam/ncam-aes.c:24-40 | block by block, decryption undoes encryption |
| `Camd35.BlocksAppend` | app/src/main/cpp/ncam/ncam-aes.c:24-40 | block by block, pieces of whole blocks can be run separately |
| `Camd35.ReceivedExactly` | app/src/main/cpp/ncam/module-camd35.c:175-475 | whatever the stream: return code, message and what is taken off it, by how much is there, whether the user is let in, and whether the checksum of what the whole packet decrypts to is right |
| `Camd35.ReturnedIsChecked` | app/src/main/cpp/ncam/module-camd35.c:410-425 | a message that is returned has its checksum right |
| `Camd35.ChecksumRefusedExactly` | app/src/main/cpp/ncam/module-camd35.c:410-425 | -4 is returned exactly if the user is let in, the whole packet is there, and its checksum is wrong |
| `Camd35.LetInExactly` | app/src/main/cpp/ncam/module-camd35.c:128-173 | a user not yet settled is let in exactly if an account of the name may log in, with the key of the first such one; the refusal is that of the last account of the name, or 1 |
| `Camd35.SettledStays` | app/src/main/cpp/ncam/module-camd35.c:133-136 | a settled user is let in exactly with the name it came with |
| `Camd35.AuthClient` | app/src/main/cpp/ncam/module-camd35.c:128-173 | a user who is let in has a key, and a refusal leaves everything as it was, so that only users who are let in get one |
| `Camd35.LetInAgain` | app/src/main/cpp/ncam/module-camd35.c:128-173 | who is let in once is let in again with the same key, also where an empty password makes it search the accounts anew |
| `Camd35.AesInPlace` | app/src/main/cpp/ncam/ncam-aes.c:24-40 | the loop changes exactly the given range, block by block |
| `Camd35.Socket.ReadFully` | app/src/main/cpp/ncam/module-camd35.c:230-265 | the read loop gets the next bytes of the stream however calls split, repeat, end or fail |
| `Camd35.Client.Authenticate` | app/src/main/cpp/ncam/module-camd35.c:128-173 | the search through the accounts and the check of later packets |
| `Camd35.Client.Prepare` | app/src/main/cpp/ncam/module-camd35.c:58-63 | message, padding and checksum in the buffer |
| `Camd35.Client.Send` | app/src/main/cpp/ncam/module-camd35.c:42-79 | the buffer sent is the specified packet |
| `Camd35.Client.ReceiveFront` | app/src/main/cpp/ncam/module-camd35.c:175-311 | the first 36 bytes: authentication and first decryption |
| `Camd35.Client.Receive` | app/src/main/cpp/ncam/module-camd35.c:175-475 | return code, message, and what is left on the stream, however recv splits it; an error of recv acts like the end of the stream where it occurs, reported as -1 in the first piece |

## Left out

- CardWire.WriteCard: the message has to fit the buffer, which the code does not check; the masks of client and card are one set of chosen tables.
- ShareUpdate.ShareServer.UpdateCardList: building the list of offered cards from readers, services and accounts; it is given that list, and one time for all timeout checks.
- ShareUpdate.ShareServer.ReportCards: the 32 buckets of the share list are one list here (`DifferentBucketsDiffer` says why the comparison is the same), so the order of announcements across buckets is that of the list.
- ShareHistory.NeverReused: share ids are not reused only until the 32-bit counter wraps; nothing is claimed after that.
- ShareNetwork.LoopFree: stealth mode; an announcement that does not fit a message (`FitsExactly`) is not sent, where the code writes past its buffer.
- ReaderView.ListsExactly: announcements that do not fit a message; requests and failures in between, which only move cards.
- ReaderTable.ReaderSession.AnswerReceived: slow answers, ratings and blocked services.
- ServerList.CardList.AddCardToServerlist: is_sid_blocked's removal of other entries while service lists are merged.
- ReaderTable.ReaderSession.MsgNewCard: the data kept for EMMs and the status flags of the reader.
- Transport.CcData.MsgRecv: the size of the receive buffer, and the extra cc_crypt pass on replies without extended mode.
- Camd35.Client.Receive: the buffer is as large as any length field can ask for; a message whose second piece ends early is dropped undecrypted, where the code decrypts what is there before it drops it; the UDP path.
- Camd35.Client.Authenticate: what cs_auth_client says of an account is a fixed input.
- CachePush.PushIn: a message whose node count runs past the buffer is dropped, where the code reads on; the configured filters are two yes-or-no inputs; client statistics and the cache the answer goes into.
- CwCycle.CwCycleList.CheckCwCycle: times and cycle times do not overflow; the word of the request and the word checked are one; memcmp is taken to be the difference of the first bytes that differ, cut to a signed byte, where the C standard only fixes its sign.
- CwCycle.OkRunsAlternate: requests with length 0 beside others with the same ids, which the code takes for each other.
- EcmStore.LoadChannelRam: parsing of lines and file names, and xxHash itself; find_channel.
- KeyChains.KeyDataContainer.SetKey: BISS session words, writing keys to a file, and freeing of single keys; a chain is a sequence of key values, not of nodes.
- KeyChains.KeyDataContainer.FindKey: lookups with a provider mask or a required length.
- Threads, locks, timers, logging, files and sockets beyond the above; the web interface, vendor back ends and the emulator's decryption algorithms: plumbing around these parts.
