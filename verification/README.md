# A verified model of the SceneHub firmware core

SceneHub is firmware for an escape-room hub: an embedded MQTT 3.1.1 broker, a JSON command
path, a scenario validator, an event bus, a table of pending command results, digital and
dimmable outputs, debounced inputs and an audio mixer. This project models the parts with the
most state and branching and proves what they promise, for all inputs, all runs and all
interleavings. `dafny verify dfyconfig.toml` covers the whole project.

## How the model is laid out

- **Broker.** `Broker` holds the session pool, the QoS 1 in-flight tables and every region
  under the global lock as functions on values. `BrokerSteps` is the step system: one step per
  locked region, steps for taking and giving a slot's `tx_lock`, and a `send_all` that lasts
  from its validation to a step with an arbitrary outcome, so steps of any other thread fall
  in between. `BrokerInvariant` proves what each step keeps, `BrokerTheorems` what follows for
  every reachable state, `BrokerSockets` what holds of socket numbers, `BrokerProgress` that the
  locks cannot deadlock, and `BrokerPool` ties the loops of the code to the regions.
  `BrokerDelivery` joins the step system to the packet codec, and shows that the sequential
  account of a retry call is a run of the step system; `BrokerIds` adds the id counter.
- **Wire and tables.** `LengthField`, `PublishCodec` and `PublishLoops` are the PUBLISH codec;
  `TopicFilter` is the wildcard matcher; `FanOut` chooses receivers and hands out packet ids;
  `RetainTable` and `SubscriptionTable` are the two tables with the finite maps they stand for,
  and `WireTables` feeds them from the packets a client sends, its will included.
- **Command path.** `JsonScan` has the stack scanners (8 and 32 levels) and the counting
  scanner, `JsonNesting` what tells them apart, `CommandPayload` the printer, `CommandRoundTrip`
  the proof that the ingest side reads back what was printed, `JsonLoops` the loops with their
  cursors, bracket stack and buffers.
- **Scenarios.** `Scenario` is the data, `StructuralCheck` the yes/no validator,
  `ScenarioReport` the issue-collecting one, `ScenarioEquivalence` their comparison and
  `ScenarioLoops` the report as it is filled in place.
- **Smaller machines.** `EventBus`, `PendingResults`, `OutputEffects` (relays and digital
  outputs), `MosfetEffects` with the fade arithmetic in `BreatheLevel`, `Debounce` and `FadeOut`.
- `Base` has sums over tables and other shared vocabulary, `Machine` the fixed-width arithmetic:
  signed 32- and 16-bit values, and division that rounds toward zero.

Code that updates things in place is a method on a class or an array, proved equal to a
function of the old state; the properties are lemmas about those functions. A C string is the
sequence of its characters, its end standing for the terminating zero. Integers are unbounded
except where a width matters, and there the wrap is written out: the 16-bit packet id, the
64-bit clocks, the 32-bit blink counts and frame counts, and the 32-bit products of the two
fades. Overflow of a signed product is undefined in C; the model wraps it, as the hardware does.

## Where a promise does not hold, and exactly when it does

- A length field of four bytes is refused by the reader although section 2.2.3 of MQTT 3.1.1
  allows it: `LengthRoundTrip` gives the exact bound, 2^21.
- Section 3.3.5 of MQTT 3.1.1 asks for the maximum QoS over all matching subscriptions; the
  code takes the first match in table order. `WhenBest` says when the two agree, `FirstNotBest`
  shows a case where they do not.
- Section 4.7.2 of MQTT 3.1.1 keeps filters that begin with a wildcard away from topics that
  begin with `$`; the matcher does not. `DollarTopics` says exactly where the two differ,
  `DollarIsMatched` shows it for `#` and for `+/x`.
- The counting scanner accepts values that the stack scanners refuse. `CounterAgreesIff` says
  when they agree: exactly when the brackets outside strings nest within the stack's depth.
  `CounterIsLaxer` shows a text where they do not.
- A bare scalar with brackets or quotes passes the payload builder but can unbalance the
  printed arguments. `WhenArgsAreFound` says when the ingest side finds them: exactly when, in
  the printed object, every string that begins ends and the brackets outside strings nest at
  most 32 deep. `BracketInScalarBreaksArgs` shows a family where they do not.
- The fade-out computes its samples in 32 and 16 bits. It never makes a sample louder, but it
  keeps signs, and is exact, only up to 65,536 frames (`WhenSignIsKept`, `WhenExact`), and falls
  steadily only up to 65,537 (`WhenRampFalls`). The 2,500 ms background fade has 110,250 frames;
  `BackgroundFadeBreaks` gives a sample that comes out with the wrong sign.
- The breathe effect's level is the exact one only for fades of at most 8,421,505 ms
  (`WhenLevelsExact`); the only caller bounds the duration when a count is given and not
  otherwise. It stays between minimum and maximum, whatever they are, exactly for fades of at
  most 2^24 ms (`WhenRangesAreKept`): up to there a wrapped product brings the byte back into
  the range. A single command below 24 days keeps its range exactly if its fade is that short,
  or it runs over the whole byte, or no product overflows (`WhenCommandKeepsRange`).
  `LongBreatheLeavesRange` gives a command that leaves its range.
- Two threads may write to one socket number: a writer whose session was closed meanwhile, and
  a thread of the session the number was given to next (`StaleWriter`; `TwoWriters` gets there
  from the cold start). At most one of them writes for the session that has the socket open
  (`OneCurrentWriter`).
- Two waiting QoS 1 entries can have the same packet id: exactly when a whole number of rounds
  of 65,535 ids lies between the draws of their ids (`WhenIdsMeet`), so not while fewer ids were
  drawn since the older one (`WaitingIdsDiffer`).
- Topics of 96 characters or more would be cut when stored and never found again, and so could
  repeat; the same for request ids of 48 characters or more. `RetainTable.StoreKeepsDistinct`,
  `SubscriptionTable.UpsertKeepsDistinct` and `TrackKeepsDistinct` are exact. No caller passes
  such topics: the packet parsers refuse them, wills included (`RetainedFromWire`,
  `SubscriptionsFromWire`), and messages published by the firmware itself are not retained. Generated request ids are short.

## Model

| member | source | states |
|---|---|---|
| BrokerTheorems.BufferOutlivesSend | components/mqtt_core/mqtt_core_packet.c:378-404 | in every reachable state a packet being sent is allocated with the length being sent, still in its entry, its session active and the slot's tx_lock held by the sender |
| BrokerTheorems.RunKeepsSend | components/mqtt_core/mqtt_core_packet.c:378-421 | over every interleaving between validation and the end of send_all, neither the transmission nor the bytes of its packet change |
| BrokerTheorems.StepKeepsSend | components/mqtt_core/mqtt_core_packet.c:262-325 | no step of any other thread frees or writes a packet in transmission |
| BrokerTheorems.OneTransmissionPerSlot | components/mqtt_core/mqtt_core_packet.c:378-421 | two threads never hold the same slot's tx_lock |
| BrokerSockets.OneCurrentWriter | components/mqtt_core/mqtt_core_packet.c:378-421 | of all threads writing to one socket number, at most one writes for the session that has it open |
| BrokerSockets.StaleWriter | components/mqtt_core/mqtt_core.c:216-256 | from any state with a sender and a newly accepted slot, a run in which the sender's session is told to close, the number goes to the new session and a thread of that session writes to it while the first still does |
| BrokerSockets.TwoWriters | components/mqtt_core/mqtt_core.c:187-256 | such a state is reached from the cold start |
| BrokerSockets.StepSocks | components/mqtt_core/mqtt_core.c:187-256 | no step gives two active sessions the same open socket |
| BrokerProgress.StepAdvances | components/mqtt_core/mqtt_core_packet.c:327-506 | every step a thread takes in an operation, whatever a transmission's outcome, ends the operation or lowers a bound on its remaining steps, and leaves the other threads where they are |
| BrokerProgress.SomeoneGoesOn | components/mqtt_core/mqtt_core_packet.c:378-421 | in every reachable state a thread with an operation under way can take its next step, or waits for a tx_lock whose holder can |
| BrokerProgress.NoDeadlock | components/mqtt_core/mqtt_core_session.c:89-140 | from every reachable state the operations under way can all be brought to their end without starting another |
| BrokerIds.WhenIdsMeet | components/mqtt_core/mqtt_core.c:258-271 | with every packet built under an id drawn from the counter, two waiting entries have the same id if and only if a multiple of 65,535 draws lies between theirs |
| BrokerIds.WaitingIdsDiffer | components/mqtt_core/mqtt_core_packet.c:288-325 | ids of waiting entries differ while fewer than 65,535 ids were drawn since the older |
| BrokerIds.AckClearsTheId | components/mqtt_core/mqtt_core_packet.c:302-325 | a PUBACK then leaves no entry of the session with its id |
| BrokerIds.StepIds | components/mqtt_core/mqtt_core_protocol.c:192-201 | every step, and every draw by any thread, keeps each packet's id the one of its own draw, and no draw is used twice |
| BrokerIds.StepKeepsIds | components/mqtt_core/mqtt_core_packet.c:262-506 | a packet keeps its id through every step; only a build brings a new one |
| BrokerTheorems.BudgetIsExact | components/mqtt_core/mqtt_core_packet.c:262-376 | the pending-bytes counter equals the sum over all entries in use and stays within 512 KiB; freeing never saturates; inactive slots hold nothing, so reuse wipes nothing live |
| BrokerTheorems.PacketsAreOwnedOnce | components/mqtt_core/mqtt_core_packet.c:262-286 | no packet sits in two entries, so none is freed twice |
| BrokerTheorems.IdleBrokerHoldsNoPacket | components/mqtt_core/mqtt_core_session.c:89-140 | with every session gone and nothing under way, no packet is allocated and the budget is zero |
| BrokerTheorems.ClientsAreUnique | components/mqtt_core/mqtt_core_protocol.c:80-113 | at most one live session per non-empty client id (section 3.1.4 of MQTT 3.1.1), at most 20 live device clients across takeovers, client count equal to active slots |
| BrokerTheorems.RetrySetsDup | components/mqtt_core/mqtt_core_packet.c:448-471 | every retransmission starts with DUP set and within eight attempts |
| BrokerTheorems.StepEvolves | components/mqtt_core/mqtt_core_packet.c:423-506 | over one step a packet is new, unchanged, or unchanged but for its DUP flag |
| BrokerTheorems.PacketsKeepTheirBytes | components/mqtt_core/mqtt_core_packet.c:423-506 | in no reachable state differs a packet from what was built in anything but DUP |
| BrokerTheorems.AttemptsAreBounded | components/mqtt_core/mqtt_core_packet.c:457-501 | send_count never exceeds eight |
| BrokerInvariant.StepInv | components/mqtt_core/mqtt_core_packet.c:262-506 | every step of every thread keeps ownership of packets and locks, the budget, slot states and client identities |
| BrokerInvariant.RunsInv | components/mqtt_core/mqtt_core_packet.c:262-506 | the invariant after every feasible run |
| BrokerInvariant.InitInv | components/mqtt_core/mqtt_core.c:60-78 | the static storage starts in the invariant |
| BrokerInvariant.ConnectInv | components/mqtt_core/mqtt_core_protocol.c:249-265 | a CONNECT with takeover or refusal keeps identities unique and devices within the limit |
| BrokerInvariant.DrainInv | components/mqtt_core/mqtt_core_session.c:89-120 | the first region of free_session empties the table and returns its bytes to the budget |
| BrokerInvariant.AcceptInv | components/mqtt_core/mqtt_core_session.c:31-71 | reaping and reusing a slot loses no entry and keeps the client count |
| BrokerPool.RetryHandlesLowestDue | components/mqtt_core/mqtt_core_packet.c:423-506 | at a fixed clock a call on an open session with k > 0 due entries handles the lowest-index one and leaves k-1 due, or closes the session; all else unchanged |
| BrokerPool.RetryIdleOtherwise | components/mqtt_core/mqtt_core_packet.c:423-447 | with nothing due, or on a closing or inactive session, a call changes nothing |
| BrokerDelivery.RetryCallIsARun | components/mqtt_core/mqtt_core_packet.c:423-506 | that sequential account is reached by a feasible run of the step system |
| BrokerDelivery.TransmissionDelivers | components/mqtt_core/mqtt_core_packet.c:327-506 | in every interleaving, what send_all puts on the wire is received as one message, whose id is the one kept in the entry |
| BrokerDelivery.AckFreesItsMessage | components/mqtt_core/mqtt_core_packet.c:302-325 | a PUBACK frees a packet that carries the acknowledged id |
| BrokerDelivery.StepCarries | components/mqtt_core/mqtt_core_packet.c:219-376 | every step keeps each entry's packet the encoding of a message with the entry's id |
| BrokerPool.Pool.FreeEntryAt | components/mqtt_core/mqtt_core_packet.c:262-276 | releases one entry: packet freed, bytes returned, cell cleared |
| BrokerPool.Pool.ClearSession | components/mqtt_core/mqtt_core_packet.c:278-286 | the loop releases every entry of a slot |
| BrokerPool.Pool.HandlePuback | components/mqtt_core/mqtt_core_packet.c:302-325 | releases the first entry with the id, and reports whether there was one |
| BrokerPool.Pool.ReserveEntry | components/mqtt_core/mqtt_core_packet.c:327-376 | takes the first free entry of a current session within the budget, or changes nothing |
| BrokerPool.Pool.ReapRetired | components/mqtt_core/mqtt_core_session.c:31-43 | clears exactly the retired slots whose delay has passed |
| BrokerPool.Pool.AllocSession | components/mqtt_core/mqtt_core_session.c:45-71 | reaps, then activates the first vacant slot, if any |
| BrokerPool.Pool.FindSession | components/mqtt_core/mqtt_core_session.c:73-87 | the first live slot with the client id |
| BrokerPool.Pool.CountDevices | components/mqtt_core/mqtt_core_protocol.c:80-104 | the number of live device clients other than the one being replaced |
| BrokerPool.Pool.ConnectClient | components/mqtt_core/mqtt_core_protocol.c:249-265 | refuses at capacity, else closes the previous owner of the id and takes it over |
| BrokerPool.Pool.RetryDue | components/mqtt_core/mqtt_core_packet.c:423-506 | the scan loop does what the retry account says |
| LengthField.LengthRoundTrip | components/mqtt_core/mqtt_core_packet.c:15-87 | every length below 2^21 is read back whatever follows; every longer one is refused |
| LengthField.DecodedIsSmall | components/mqtt_core/mqtt_core_packet.c:70-87 | what the reader accepts is below 2^21 and takes one to three bytes |
| PublishCodec.PublishRoundTrip | components/mqtt_core/mqtt_core_protocol.c:374-436 | for any topic under 96 bytes and NUL-free payload that fits, a packet equal to the encoded one up to DUP gives back topic, payload, QoS, retain and packet id, and leaves the stream right behind it |
| PublishCodec.WireRoundTrip | components/mqtt_core/mqtt_core_packet.c:140-260 | the same for the packet as encoded |
| PublishCodec.WireIsInjective | components/mqtt_core/mqtt_core_packet.c:140-260 | equal packets come from equal messages |
| PublishCodec.AcceptedIsReceivable | components/mqtt_core/mqtt_core_protocol.c:374-421 | whatever the parser accepts is within the limits, at QoS 0 or 1, with a non-zero id exactly at QoS 1 |
| PublishCodec.ParseThenEncode | components/mqtt_core/mqtt_core_protocol.c:374-421 | encoding what was parsed from a body without zero bytes gives that body back |
| PublishCodec.Header | components/mqtt_core/mqtt_core_packet.c:170-170 | the fixed header byte in eight bits, exact for QoS up to 3 |
| PublishLoops.EncodeLengthInto | components/mqtt_core/mqtt_core_packet.c:15-27 | the do-while loop writes the base-128 digits into the four-byte field |
| PublishLoops.ReadLengthFrom | components/mqtt_core/mqtt_core_packet.c:70-87 | the reading loop is the decoder, on every stream |
| PublishLoops.BuildQos1 | components/mqtt_core/mqtt_core_packet.c:219-260 | null exactly on a failed allocation, id 0 or an oversized packet; else the packet of section 3.3 of MQTT 3.1.1 |
| PublishLoops.FillPublish | components/mqtt_core/mqtt_core_packet.c:563-610 | fills the slot buffer with the same bytes, or refuses and leaves it as it was |
| PublishLoops.PublishToSock | components/mqtt_core/mqtt_core_packet.c:140-194 | sends the same bytes in pieces; however the socket fails, what went out is a prefix of the packet |
| PublishLoops.ParsePublish | components/mqtt_core/mqtt_core_protocol.c:374-421 | the parser's outcome on every body, malformed and denied ones included; the body is not changed |
| PublishLoops.Client.OnPublish | components/mqtt_core/mqtt_core_protocol.c:374-436 | the acknowledgement sent, the message handed on and the result, for every packet and outcome of sending |
| PublishLoops.ReactionIsSound | components/mqtt_core/mqtt_core_protocol.c:400-435 | a QoS 1 message handed on was acknowledged with its own non-zero id; a malformed one is neither acknowledged nor handed on, a denied one only acknowledged |
| TopicFilter.TopicMatchesFilter | components/mqtt_core/mqtt_core_acl.c:165-211 | the two-cursor loop terminates and decides the match of the level lists, on all strings |
| TopicFilter.MatchLevelsMeans | components/mqtt_core/mqtt_core_acl.c:165-211 | matching level by level, without recursion: a final # for any number of further levels, + for one (section 4.7.1 of MQTT 3.1.1) |
| TopicFilter.LiteralFilter | components/mqtt_core/mqtt_core_acl.c:165-211 | a filter without a wildcard level matches itself and nothing else |
| TopicFilter.LiteralCharacters | components/mqtt_core/mqtt_core_acl.c:165-211 | likewise for a filter without the characters + and # |
| TopicFilter.SubtreeFilter | components/mqtt_core/mqtt_core_acl.c:187-208 | p/# matches p and exactly the topics below it |
| TopicFilter.JoinOfLevels | components/mqtt_core/mqtt_core_acl.c:175-185 | splitting into levels loses nothing |
| TopicFilter.DollarTopics | components/mqtt_core/mqtt_core_acl.c:165-211 | the matcher accepts what sections 4.7.1 and 4.7.2 of MQTT 3.1.1 do, and more in exactly one case: a topic beginning with $, a wildcard first level, and levels that agree |
| TopicFilter.DollarIsMatched | components/mqtt_core/mqtt_core_acl.c:187-195 | # matches every $ topic, and +/x every two-level $ topic ending in x |
| FanOut.SelectTargets | components/mqtt_core/mqtt_core_protocol.c:175-204 | targets are exactly the eligible sessions with a matching filter, each once in slot order, with the QoS of the first match and a non-zero id exactly at QoS 1, other threads drawing ids meanwhile |
| FanOut.FirstMatchIs | components/mqtt_core/mqtt_core_protocol.c:192-201 | the chosen subscription matches and no earlier one does |
| FanOut.WhenBest | components/mqtt_core/mqtt_core_protocol.c:192-201 | the first match gives the best QoS if and only if the publication is QoS 0, the first match asks for QoS 1, or no later match does |
| FanOut.FirstNotBest | components/mqtt_core/mqtt_core_protocol.c:192-201 | a client subscribed to a/# at 0 and then a at 1 gets a at 0 |
| FanOut.IdsDistinct | components/mqtt_core/mqtt_core.c:258-271 | any 65,535 consecutive ids are pairwise distinct |
| FanOut.EveryIdIsUsed | components/mqtt_core/mqtt_core.c:258-271 | every id from 1 to 65,535 occurs in each such round |
| FanOut.TargetIdsDistinct | components/mqtt_core/mqtt_core_protocol.c:192-201 | acknowledged targets of one publication get different ids while at most 65,535 are drawn |
| FanOut.PacketIds.Next | components/mqtt_core/mqtt_core.c:258-271 | the counter wraps at 16 bits and skips zero |
| FanOut.EffectiveQos | components/mqtt_core/mqtt_core.c:273-279 | the result is at most 1 and is the smaller of publication and subscription otherwise |
| RetainTable.RunRefines | components/mqtt_core/mqtt_core_retain.c:62-114 | over every sequence of stores with topics that fit, the table is a finite map of at most 32 keys |
| RetainTable.StoreRefines | components/mqtt_core/mqtt_core_retain.c:75-114 | a store overwrites even when full, an empty payload deletes (section 3.3.1.3 of MQTT 3.1.1), a full table drops only new keys |
| RetainTable.StoreKeepsDistinct | components/mqtt_core/mqtt_core_retain.c:75-114 | keys stay distinct if and only if the topic fits, the payload is empty, the table is full or the cut topic is absent |
| RetainTable.LongTopicRepeats | components/mqtt_core/mqtt_core_retain.c:108-109 | a topic that does not fit, stored twice, takes two cells with one key |
| RetainTable.Retain.Put | components/mqtt_core/mqtt_core_retain.c:75-114 | the in-place store is that function of the old table |
| RetainTable.Retain.Get | components/mqtt_core/mqtt_core_retain.c:62-73 | the first cell in use with the topic |
| RetainTable.DeliverRetain | components/mqtt_core/mqtt_core_retain.c:116-163 | sends the matching cells, each as it is when visited, in table order up to the first failed send |
| RetainTable.EachDeliveredOnce | components/mqtt_core/mqtt_core_retain.c:130-161 | without a failure each matching retained message is delivered exactly once, at the smaller QoS |
| SubscriptionTable.RunRefines | components/mqtt_core/mqtt_core_protocol.c:140-372 | over every sequence of subscriptions and unsubscriptions with topics that fit, the list is a finite map of at most 16 keys |
| SubscriptionTable.UpsertRefines | components/mqtt_core/mqtt_core_protocol.c:140-173 | refused exactly for an empty topic or a new one when full; else sets one key and keeps the places of the others |
| SubscriptionTable.UpsertKeepsDistinct | components/mqtt_core/mqtt_core_protocol.c:165-168 | keys stay distinct if and only if the topic fits or the cut topic is absent |
| SubscriptionTable.RemoveRefines | components/mqtt_core/mqtt_core_protocol.c:341-372 | unsubscribing removes that key and no other |
| SubscriptionTable.RemoveKeepsOrder | components/mqtt_core/mqtt_core_protocol.c:355-369 | the remaining topics keep their order |
| SubscriptionTable.Subscriptions.Subscribe | components/mqtt_core/mqtt_core_protocol.c:140-173 | the in-place upsert, with the granted QoS clamped to 1 |
| SubscriptionTable.Subscriptions.Unsubscribe | components/mqtt_core/mqtt_core_protocol.c:355-369 | the shifting loop removes every entry with the topic |
| WireTables.SubscriptionsFromWire | components/mqtt_core/mqtt_core_protocol.c:306-372 | whatever SUBSCRIBE and UNSUBSCRIBE packets a client sends, its subscriptions are a finite map of at most 16 topics |
| WireTables.RetainedFromWire | components/mqtt_core/mqtt_core_protocol.c:374-436 | whatever is published, by packets or by wills of ended sessions, the retained messages are a finite map of at most 32 topics |
| WireTables.WillOf | components/mqtt_core/mqtt_core_protocol.c:220-285 | the will a CONNECT leaves in its session has a topic under 96 characters and a payload that fits its buffer |
| WireTables.ParseText | components/mqtt_core/mqtt_core_protocol.c:26-40 | a text read from a packet fits its buffer and lies inside the packet |
| WireTables.ParseSubscribe | components/mqtt_core/mqtt_core_protocol.c:306-339 | a SUBSCRIBE packet asks for at most 16 topics, all of which fit an entry |
| JsonScan.ScannersAgree | components/command_executor/command_executor.c:82-126 | on every value a stack scanner of any depth accepts, the counter and every deeper stack stop at the same place |
| JsonScan.CountAgrees | components/command_executor/command_executor.c:97-117 | the counter is the number of open brackets of its kind on the stack |
| JsonNesting.CounterAgreesIff | components/command_executor/command_executor.c:82-126 | on every value the counter accepts, a stack scanner accepts if and only if the brackets outside strings nest within its depth, and then both stop at the same place |
| JsonNesting.ScanIsEmptying | components/device_control_ingest/device_control_ingest_apply.c:49-99 | a stack scan reads the whole of a text ending in a closing bracket if and only if the text's strings end in it and its brackets outside strings bring the stack down to nothing |
| JsonNesting.WhenArgsAreFound | components/command_executor/command_executor_mqtt.c:286-349 | in the output of a successful build the ingest scanner finds the printed arguments if and only if their strings end and their brackets outside strings nest at most 32 deep; then it finds the time too |
| JsonNesting.BalancedIsNested | components/device_control_ingest/device_control_ingest_apply.c:49-99 | being balanced to the ingest scanner is that condition on the printed object |
| JsonNesting.ScanSeesBrackets | components/device_control_ingest/device_control_ingest_apply.c:49-99 | of a value read to its end, the stack scan sees the brackets outside strings alone |
| JsonNesting.EmptiesIs | components/command_executor/command_executor_mqtt.c:60-110 | a bracket stack is emptied exactly by brackets that nest |
| JsonScan.CounterIsLaxer | components/command_executor/command_executor.c:97-117 | a text with a mismatched bracket that the counter accepts and the stack scanners refuse |
| JsonScan.FindIsFirst | components/device_control_ingest/device_control_ingest_apply.c:164-191 | in an object that reads through, the search gives the first pair with the key |
| CommandRoundTrip.PayloadRoundTrip | components/command_executor/command_executor_mqtt.c:286-349 | after a successful build the ingest scanner finds request id and command that decode to the originals; it finds the arguments if and only if they are balanced, and in them every key has the parameter's value if there is one, else the default's |
| CommandRoundTrip.PlainScalarsBalance | components/command_executor/command_executor_mqtt.c:286-317 | bare scalars without quotes or brackets always leave the arguments balanced |
| CommandRoundTrip.BracketInScalarBreaksArgs | components/command_executor/command_executor_mqtt.c:60-110 | a bare scalar ending in an open bracket is accepted but makes the arguments unreadable |
| CommandRoundTrip.MergedLookup | components/command_executor/command_executor_mqtt.c:286-317 | merging lets parameters override defaults and keeps everything else |
| CommandRoundTrip.JoinReads | components/command_executor/command_executor_mqtt.c:267-317 | printed pairs are read back as the same pairs |
| CommandPayload.QuoteDecodes | components/device_control_ingest/device_control_ingest_apply.c:193-249 | decoding a printed string gives the string, whenever it fits the buffer |
| CommandPayload.QuoteScans | components/command_executor/command_executor_mqtt.c:233-265 | a printed string ends at its own closing quote whatever it contains |
| CommandPayload.DecimalParses | components/device_control_ingest/device_control_ingest_apply.c:298-324 | every 64-bit number survives printing and parsing; the overflow test refuses none |
| CommandPayload.BuildWrites | components/command_executor/command_executor_mqtt.c:319-349 | a successful build is the object with the four fields and the merged arguments, and fits the buffer |
| JsonLoops.StackScanFrom | components/command_executor/command_executor_mqtt.c:60-110 | the loop with its stack array is the bracket scan |
| JsonLoops.SkipValueFrom | components/device_control_ingest/device_control_ingest_apply.c:49-99 | the value scanner at either depth |
| JsonLoops.SkipValueByCountFrom | components/command_executor/command_executor.c:82-126 | the counting loop |
| JsonLoops.NextPairFrom | components/command_executor/command_executor_mqtt.c:112-164 | reading one pair, with every refusal |
| JsonLoops.FindInObjectFrom | components/device_control_ingest/device_control_ingest_apply.c:164-191 | the search loop over an object |
| JsonLoops.HasKeyIn | components/command_executor/command_executor_mqtt.c:192-212 | whether an object has a key, false on unreadable text |
| JsonLoops.DecodeStringInto | components/device_control_ingest/device_control_ingest_apply.c:193-249 | the copying loop decodes into the buffer or refuses, and terminates the text |
| JsonLoops.ParseU64From | components/device_control_ingest/device_control_ingest_apply.c:298-324 | the digit loop with its overflow test |
| JsonLoops.Writer.Putn | components/command_executor/command_executor_mqtt.c:214-226 | appends whole texts that fit with their terminator, else nothing |
| JsonLoops.Writer.PutEscaped | components/command_executor/command_executor_mqtt.c:233-265 | appends the quoted, escaped string |
| JsonLoops.Writer.PutObjectPairs | components/command_executor/command_executor_mqtt.c:286-317 | appends the pairs of one object not overridden by the other |
| JsonLoops.BuildPayload | components/command_executor/command_executor_mqtt.c:319-349 | the writer produces the payload or the error of the specification |
| ScenarioEquivalence.ValidatorsAgree | components/room_scenario/room_scenario_validation.c:292-359 | structural validation is OK if and only if the static report ends valid, branch types and reentry modes are legal and no step is a reaction control step, however many issues overflow the report |
| ScenarioEquivalence.BodyAgrees | components/room_scenario/room_scenario_validation.c:23-97 | a step body passes one check exactly when it passes the other, apart from the two reaction steps |
| ScenarioEquivalence.BranchV2Agrees | components/room_scenario/room_scenario_validation.c:819-933 | the two checks of a reactive branch agree through variants, actions, command groups and completion ranges |
| ScenarioEquivalence.BranchesAgree | components/room_scenario/room_scenario_validation.c:976-1217 | the report of all branches stays valid exactly when each branch is accepted and no id repeats |
| ScenarioReport.Add | components/room_scenario/room_scenario_validation.c:370-394 | the report never exceeds 32 issues and never loses one it has |
| ScenarioLoops.Reporter.Record | components/room_scenario/room_scenario_validation.c:370-394 | an error lowers the verdict even when the list is full |
| ScenarioLoops.Reporter.ValidateStatic | components/room_scenario/room_scenario_validation.c:976-1217 | the in-place report is the report of the specification |
| ScenarioLoops.StepRepeats | components/room_scenario/room_scenario_validation.c:276-290 | the loop finds a later step with the same id in a shared branch, if there is one |
| EventBus.PostNeverFails | components/event_bus/event_bus.c:386-445 | in every interleaving, once a pool cell is obtained the queue has room, so the timeout path is dead |
| EventBus.QueueIsOrdered | components/event_bus/event_bus.c:425-430 | queued cells are distinct and in use, and the queue is an urgent part followed by a normal part |
| EventBus.NormalsInOrder | components/event_bus/event_bus.c:250-264 | normal events are dispatched in posting order, none skipped |
| EventBus.NothingIsLost | components/event_bus/event_bus.c:250-264 | once idle, every posted event has been dispatched exactly once |
| EventBus.StepInv | components/event_bus/event_bus.c:90-128 | every step keeps ownership of cells, the order of the queue and the account of events |
| EventBus.MessagePool.Take | components/event_bus/event_bus.c:90-112 | takes the first free cell, if any |
| EventBus.MessagePool.Give | components/event_bus/event_bus.c:114-128 | frees the cell; addresses outside the pool are ignored |
| PendingResults.EachLeavesOnce | components/command_executor/command_executor_result.c:45-193 | over every sequence of operations, tracked requests are those that left plus those still waiting |
| PendingResults.IdsStayDistinct | components/command_executor/command_executor_result.c:45-84 | with ids that fit, waiting ids stay distinct over every sequence of operations |
| PendingResults.TrackKeepsDistinct | components/command_executor/command_executor_result.c:45-84 | ids stay distinct if and only if the new id fits or its cut form is absent |
| PendingResults.LongIdRepeats | components/command_executor/command_executor_result.c:76-82 | an id that does not fit can be tracked twice |
| PendingResults.NextDeadlineAfterPoll | components/command_executor/command_executor_result.c:119-181 | after a poll with room for all entries the next deadline is zero or strictly later, given no clock wrap |
| PendingResults.NextDeadlineIs | components/command_executor/command_executor_result.c:161-181 | the next deadline is the least one, and zero exactly when there is none |
| PendingResults.PollConserves | components/command_executor/command_executor_result.c:119-159 | what a poll removes is what it reports |
| PendingResults.Pending.TrackPending | components/command_executor/command_executor_result.c:45-84 | one pass gives the error codes and the first free entry of the specification |
| PendingResults.Pending.ClearPending | components/command_executor/command_executor_result.c:86-101 | clears the first entry with the id |
| PendingResults.Pending.PollTimeouts | components/command_executor/command_executor_result.c:119-159 | removes the first due entries up to the limit and makes an event of each |
| PendingResults.EveryTimeoutIsReported | components/command_executor/command_executor_result.c:149-158 | after any operations, each entry a poll removes is reported as a timeout of that request; no record is blank |
| PendingResults.Pending.NextTimeoutDeadline | components/command_executor/command_executor_result.c:161-181 | the loop computes the next deadline |
| PendingResults.Pending.Reset | components/command_executor/command_executor_result.c:183-193 | empties the table |
| OutputEffects.SafeOffHolds | components/hardware_io/hardware_io_relay.c:84-115 | after a safe-off whose writes succeed, no sequence of pulse and blink callbacks, late ones included, leaves an enabled line on |
| OutputEffects.SafeOffOutcome | components/hardware_io/hardware_io_relay.c:291-307 | a line is off after safe-off if and only if its write succeeded or it was off |
| OutputEffects.BlinkIsExact | components/hardware_io/hardware_io_relay.c:84-115 | a blink of n, 0 < n < 2^32-1, has exactly n on-phases and ends on the final value at callback 2n, for good |
| OutputEffects.BlinkIsEndless | components/hardware_io/hardware_io_io_runtime.c:134-169 | a count of 0, or of 2^32-1, never ends |
| OutputEffects.Bank.EffectTimer | components/hardware_io/hardware_io_io_runtime.c:134-169 | the callback is the tick of the specification on its own line only |
| OutputEffects.Bank.PulseTimer | components/hardware_io/hardware_io_relay.c:74-82 | the pulse callback only switches off |
| OutputEffects.Bank.Blink | components/hardware_io/hardware_io_relay.c:235-272 | starts the blink, or undoes it when the write or the timer fails |
| OutputEffects.Bank.SafeOffAllLocked | components/hardware_io/hardware_io_io_runtime.c:303-319 | stops and switches off every enabled line and reports a failure |
| MosfetEffects.SafeOffHolds | components/hardware_io/hardware_io_mosfet.c:305-326 | after a safe-off whose write succeeds no sequence of effect callbacks raises the level from zero |
| MosfetEffects.BlinkIsExact | components/hardware_io/hardware_io_mosfet_effects.c:71-107 | a blink alternates n times and ends on the final level at callback 2n |
| MosfetEffects.BreatheStaysInRange | components/hardware_io/hardware_io_mosfet_effects.c:108-145 | at any callback times and write outcomes, a breathe that lasts at most 2^24 ms, or runs over the whole byte, or whose products fit 32 bits, keeps its level between minimum and maximum while it runs |
| MosfetEffects.BreatheIsExact | components/hardware_io/hardware_io_mosfet_effects.c:108-145 | a breathe of n begins exactly n upward fades before it ends |
| MosfetEffects.BreatheStarts | components/hardware_io/hardware_io_mosfet_effects.c:210-255 | both hold from the start command on, the range at any count |
| MosfetEffects.WhenCommandKeepsRange | components/hardware_io/hardware_io_mosfet_effects.c:210-255 | a start command whose fade is below 24 days keeps its level in its range under every sequence of callbacks if and only if the fade lasts at most 2^24 ms, or the range is the whole byte, or the products fit |
| MosfetEffects.LongBreatheLeavesRange | components/hardware_io/hardware_io_mosfet_effects.c:108-115 | a breathe from 200 to 255 over 50,000 s has level 159 after 40,000 s |
| MosfetEffects.FailedStartIsQuiet | components/hardware_io/hardware_io_mosfet_effects.c:167-255 | a start command that fails leaves no effect running, and the final level where it can be written |
| BreatheLevel.WhenLevelsExact | components/hardware_io/hardware_io_mosfet_effects.c:110-113 | the 32-bit level is the exact one for all levels and times if and only if the fade lasts at most 8,421,505 ms |
| BreatheLevel.WhenRangesAreKept | components/hardware_io/hardware_io_mosfet_effects.c:110-114 | for every 32-bit fade, the computed levels stay between the ends of the fade, whatever these are, if and only if it lasts at most 2^24 ms |
| BreatheLevel.WhenRangeIsKept | components/hardware_io/hardware_io_mosfet_effects.c:110-114 | for given ends and a fade below 24 days, some level of the upward fade lies outside them if and only if the fade is longer than 2^24 ms, the ends are not those of the byte, and a product overflows |
| BreatheLevel.CodeIsExact | components/hardware_io/hardware_io_mosfet_effects.c:110-113 | where the products between two levels fit, the computed level is the exact one |
| BreatheLevel.FadeWithin | components/hardware_io/hardware_io_mosfet_effects.c:110-113 | the exact level stays between the ends of the fade |
| MosfetEffects.Bank.SafeOffAllLocked | components/hardware_io/hardware_io_mosfet.c:305-326 | stops the effect of every enabled channel and writes zero to it |
| MosfetEffects.Bank.EffectTimer | components/hardware_io/hardware_io_mosfet_effects.c:71-145 | the callback, in 32-bit arithmetic and with both readings of the clock, is the tick of the specification on its own channel only |
| Debounce.ChangesExactly | components/hardware_io/hardware_io_io_runtime.c:64-109 | in the terms of the samples alone, the reported level changes if and only if the poll sees another level, and an earlier poll and all since saw it for at least the debounce time |
| Debounce.SteadyIsReported | components/hardware_io/hardware_io_io_runtime.c:79-97 | a level seen by every poll for at least the debounce time is the reported level |
| Debounce.LevelChanges | components/hardware_io/hardware_io_io_runtime.c:64-109 | the reported level changes exactly when every poll since the candidate was first seen saw the new level and the debounce time has passed |
| Debounce.GlitchesAreHidden | components/hardware_io/hardware_io_io_runtime.c:64-109 | excursions shorter than the debounce time never show |
| Debounce.EventsAlternate | components/hardware_io/hardware_io_io_runtime.c:38-62 | high and low events strictly alternate, from the initial level to the reported one |
| Debounce.ActiveFollows | components/hardware_io/hardware_io_io_runtime.c:91-95 | the active flag always follows the reported level |
| Debounce.Inputs.PollTimer | components/hardware_io/hardware_io_io_runtime.c:64-109 | one poll of every enabled input, with the changes to publish in channel order |
| FadeOut.AnyChunking | components/audio_player/audio_player_mixer.c:543-589 | any frame-aligned chunking gives the same samples and the same ramp as the whole stream |
| FadeOut.NeverLouder | components/audio_player/audio_player_mixer.c:543-589 | in the code's arithmetic no sample of any ramp comes out larger, and all are zero after the ramp |
| FadeOut.WhenSignIsKept | components/audio_player/audio_player_mixer.c:567-568 | no 16-bit sample changes sign along a ramp if and only if it has at most 65,536 frames |
| FadeOut.WhenExact | components/audio_player/audio_player_mixer.c:567-568 | the samples are the exact quotients if and only if the ramp has at most 65,536 frames |
| FadeOut.WhenRampFalls | components/audio_player/audio_player_mixer.c:564-572 | a steady tone only gets softer along a ramp if and only if it has at most 65,537 frames |
| FadeOut.RampFalls | components/audio_player/audio_player_mixer.c:564-572 | on such a ramp later frames of a chunk are never louder |
| FadeOut.ScaleIsExact | components/audio_player/audio_player_mixer.c:567-568 | where the product fits 32 bits the stored sample is the exact quotient |
| FadeOut.BackgroundFadeBreaks | components/audio_player/audio_player_runtime.c:18-18 | the background fade has 110,250 frames; its loudest positive sample comes out negative at the first frame and louder later |
| FadeOut.SafeDurations | components/audio_player/audio_player_mixer.c:862-866 | a fade of any duration keeps signs, and is exact, if and only if its 32-bit sample count is below 65,537,000: of the durations up to 97,391 ms, where the count does not wrap, exactly those up to 1,486 ms |
| FadeOut.Channel.ApplyFadeOut | components/audio_player/audio_player_mixer.c:543-589 | the in-place loops, with their 32-bit product and 16-bit store, are the fade of the specification |
| FadeOut.Channel.StartFade | components/audio_player/audio_player_mixer.c:848-886 | a positive duration starts a full ramp of at least one frame on a sounding channel; zero or less stops the stream |

## Left out

- Sockets, lwIP, FreeRTOS, timers and the heap themselves: they appear as arbitrary outcomes, atomic regions and callbacks that may come at any time.
- Reuse of a freed packet's address for a new packet: each allocation gets a fresh identity, so a comparison of addresses is a comparison of identities.
- The idle test of the sweep, keepalive times and the choice of who closes a session: any close may happen at any time in the step system.
- Edits of subscriptions inside the broker's step system: a session's list may become anything there; the lists themselves are `SubscriptionTable`.
- The branch of `free_session` for a slot owned by another thread: it has no caller.
- CONNECT parsing behind the will, authentication, the static access table (a parameter where it is consulted), and when a session that ends publishes its will: any session may.
- The loops of the SUBSCRIBE and UNSUBSCRIBE handlers in place: `WireTables` parses the packets as values, and `SubscriptionTable` has the in-place updates they make.
- CONNACK, SUBACK, UNSUBACK and PINGRESP packets: fixed layouts with no state behind them.
- The text of scenario issues and their branch, variant and action attribution: each issue keeps its level, step index and code only.
- ScenarioEquivalence.ValidatorsAgree: assumes the declared array sizes, at most eight guard flags per branch among them, and reactive pool counts within their limits, as the loaders guarantee; the runtime report that consults device stores is not modelled.
- The typed getters built on the counting scanner, `params_read_scalar` among them, and the ingest functions that copy fields into a device slot.
- Scanning past a terminator: texts are whole strings, so reads beyond their end do not arise.
- The event bus job queue, handler registration and statistics counters.
- IO pulse and MOSFET pulse and fade callbacks: they do not look at an active flag, so one already waiting for the lock when safe-off runs can still write; the safe-off claims are about the other callbacks.
- BreatheLevel.WhenRangeIsKept: exact for fades up to 2^31 - 255 ms; above, whether a single range is kept turns on how its span divides 2^31; there the model has one direction, and `WhenRangesAreKept` over all ranges.
- MosfetEffects.WhenCommandKeepsRange: likewise exact for fades up to 2^31 - 255 ms.
- MosfetEffects.StartBreathe: stopping the pulse and fade timers before an effect starts, and its failure, are not modelled.
- FadeOut.WhenRampFalls: like the other fade results, for ramps of at most 4,294,967 frames; no longer one can be started.
- The playing state of a mixer channel: starting and stopping a fade change only the ramp in the model.
- Chunks that split a frame: the mixer works on whole frames.
- WAV and MP3 decoding, resampling, tone generation and the reader hand-off; stores built on cJSON and their files; configuration, Wi-Fi, OTA, web and desktop parts.
