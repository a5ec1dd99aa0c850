# Verification of the board-support tools

A Dafny model of the parts of this repository that hold protocol, arithmetic or
register state, and proofs of what they promise. `dafny verify dfyconfig.toml`
checks all of it.

* **TFTP server** (`Tftp*.dfy`, `IntText.dfy`). `TftpServer` has the two nested
  sending loops as a method and the step function they implement; `TftpOptions`,
  `TftpHandler` and `IntText` have the request parser and the option negotiation.
  `TftpAnswers` and `TftpRequests` say in bytes what packets, answers and requests
  are and what the server makes of them, and `TftpTranscript` what a whole transfer
  puts on the wire. `TftpNetwork` joins the step function to a client as RFC 1350
  describes it and to two channels that may lose, copy and reorder. `TftpSafety`,
  `TftpBudget`, `TftpGiveUp` and `TftpStale` hold the results about whole runs, and
  `TftpLink` carries them back to the loops.
* **CPU PLL** (`CpuPllMath.dfy`, `CpuPll.dfy`). The rounding arithmetic for every
  divider setting, and the register sequence as a class whose hardware walks one
  divider step at a time between any two accesses, with a busy bit that does as
  it likes.
* **Infrared receiver** (`NecDecoder.dfy`, `LircReader.dfy`, `LircTheory.dfy`). The
  burst reader and the NEC decoder, their specifications, and the round trip from
  codes to events.
* **Event bus** (`EventBus*.dfy`). The bus as a class, and the same bus with every
  queue operation as one step of an interleaving.
* **Scanners** (`FdtScan.dfy`, `BannerWindow.dfy`). Device trees in a raw image, and
  the sliding window over the serial output.
* **GPIO panel** (`GpioPanel.dfy`). Pin requests down to masked PL061 registers.

Modelling notes. Files are byte sequences, times are whole microseconds, block
numbers are unbounded with the 16-bit wrap written out at each use. An event
sequence of `Exec` may hold any events in any order; one that is not possible
when its turn comes is skipped. The client of `TftpNetwork` is RFC 1350's, which
answers a repeated packet again and, as section 2 allows, may time out at any
moment and send its last answer again; it is not part of this repository.
`InFlight.tag`, the counters of `Net`, `Sub.taken`, `Sub.since`, `Sub.upto`,
`Sub.missed`, `Pll.history`, `Pll.samples`, `Panel.held` and `Catcher.history` are
bookkeeping that no step reads.

Where the code falls short of its own description the code is modelled as it is:

* Any answer that is not the matching ACK, duplicates included, makes the server
  send again and uses up an attempt (`scripts/tftpd.py:91-108`), which RFC 1123
  section 4.2.3.1 warns against. `TftpBudget.ReliableBudget` says what it costs: on a
  network that only delays, the five attempts are a budget for the whole transfer.
  On any network giving up takes five timeouts or copies (`TftpGiveUp.GivingUpIff`).
* Block numbers wrap, so on a network that reorders, a packet kept back for 65536
  blocks can spoil a transfer. `TftpStale.SafeIffFits` is the exact condition: no run
  can go wrong if and only if the file is shorter than `65536 * blksize` bytes, or,
  after an OACK, whose answer is an ACK with number 0, has at most
  `65535 * blksize` bytes.
* A datagram shorter than its header and a `blksize` that is no integer raise
  exceptions that nothing catches, so they end the server's main loop and not only
  the transfer. `TftpLink.MalformedIff` and `TftpHandler.Handle` say exactly which
  answers and which requests these are; `IntText.IntIff` says what an integer is
  (not, for one, a number beside a separator byte: `TftpOptions.SeparatorStopsServer`).
* A timeout option is acknowledged with the text that came, unread, and the transfer
  waits five seconds whatever it says (`scripts/tftpd.py:57`, `:65-66`); in
  RFC 2349 it is the number of seconds to wait before sending again. The answer is true if and only if
  the client asked for five (`TftpOptions.TimeoutIsTrueIff`, `TimeoutCanMislead`).
* `publish` says that a slow client loses its oldest events, and it is not meant to
  raise. `queue.Full` can leave it if and only if the queues have a limit and there
  are at least two publishers (`EventBusFull.FullEscapesIff`). With one publisher, an
  event other than the oldest is lost if and only if in some publish the consumer
  takes exactly as many events as the queue holds between the failed put and the
  get (`EventBusSingle.GapIffEmptied`, `EventBusFull.NewestCanBeMissed`).
* A pulse on a bank that does not exist ends in an uncaught exception and no reply
  (`scripts/tvbox-panel.py:450`, `GpioPanel.Panel.GpioPulse`); every other bad pin or
  bank is an error reply.
* `gpio_pulse` says that it puts the pin back the way it was. It does for the
  direction. A level bit that was set, of an output or left over at an input, is
  cleared if the pulse drove the pin, and only then is the pin not as it was
  (`GpioPanel.PulseIsUndone`).
* The serial window holds 4096 bytes and a read asks for as many. The detector is
  right for all reads of up to n bytes if and only if n is at most 4078
  (`BannerWindow.AgreementIff`).

## Model

| member | source | states |
|---|---|---|
| TftpWire.WrapIsInjective | scripts/tftpd.py:98 | comparing wrapped block numbers is comparing block numbers, for any two less than 65536 apart |
| TftpServer.OnReceive | scripts/tftpd.py:70-112 | one answer: the next server state is valid, and the server sends nothing or exactly the DATA packet of the block it then waits on |
| TftpServer.Drive | scripts/tftpd.py:70-112 | every script of answers, also an empty one, brings the server to a stop |
| TftpServer.SendBlock | scripts/tftpd.py:91-108 | the attempt loop with its for-else: the outcome and the packets are those of the step function on the same answers, and it goes on only when the block was acknowledged |
| TftpServer.Transfer | scripts/tftpd.py:70-114 | the OACK phase and the two nested loops end in the outcome, and send exactly the packets, of the step function on the same answers; the OACK counts as refused exactly when the first answer has two bytes or more that do not begin with 0, 4, and as timed out exactly when none comes, and then nothing else was sent |
| TftpServer.OackPhase | scripts/tftpd.py:70-83 | for every script: refused, timed out or cut short with only the OACK sent, exactly by the first answer; after bytes 0, 4 the session goes on as one without options |
| TftpAnswers.DataOnTheWire | scripts/tftpd.py:90 | a DATA packet is 0, 3, the block number big-endian modulo 65536, and the block's stretch of the file |
| TftpAnswers.OneAnswer | scripts/tftpd.py:97-104 | in bytes: exactly 0, 4 and the block's number is its ACK, 0, 5 ends the transfer, fewer than four bytes raise, and anything else or nothing costs an attempt |
| TftpAnswers.BlockWindow | scripts/tftpd.py:91-112 | of at most five answers the first deciding one counts: with i others before it the block goes out i more times and then the transfer goes on, is done, or ends as that answer says; without one it gives up |
| TftpTranscript.ShortIffLast | scripts/tftpd.py:89-112 | a chunk is short exactly from block size/blksize + 1 on; earlier ones are full and the last has size mod blksize bytes |
| TftpTranscript.ChunksAreTheFile | scripts/tftpd.py:88-112 | the chunks of all blocks concatenate to the file |
| TftpTranscript.TransferShape | scripts/tftpd.py:70-114 | for every script: an OACK at most once, then the blocks in order, each one to five times in a row, at most 5 (size/blksize + 1) DATA packets; done means all blocks and the right byte count, giving up means five sends of the last one |
| TftpOptions.SplitTwoFields | scripts/tftpd.py:25-29 | NUL-free fields come out of the split as they went in |
| TftpOptions.CollectOptions | scripts/tftpd.py:28-34 | the option loop computes the map in which later pairs win and empty keys are skipped |
| TftpOptions.ParseRequest | scripts/tftpd.py:24-35 | file name, mode and options of any payload |
| TftpRequests.SplitJoins | scripts/tftpd.py:25 | the fields joined by NULs are the payload, and no field holds one |
| TftpRequests.RequestReads | scripts/tftpd.py:24-35 | for every payload: name and mode ("octet" if there is none) read off their fields, and an option has the value of the last named pair that gives it, if any does |
| TftpRequests.CaseIsIgnored | scripts/tftpd.py:32 | requests that differ only in the case of option names have the same options |
| TftpRequests.OackOnTheWire | scripts/tftpd.py:71-73 | an OACK is 0, 6 and the encoded list |
| TftpRequests.EncodeOne | scripts/tftpd.py:73 | an ASCII character is encoded as itself and the replacement character as its three UTF-8 bytes |
| TftpOptions.OptionsReadBack | scripts/tftpd.py:71-73 | the OACK encoding, parsed as the request parser does, gives each value as it survives encoding and decoding |
| TftpOptions.OptionsRoundTrip | scripts/tftpd.py:24-35 | parse after encode is the identity exactly when all values are ASCII |
| TftpOptions.RequestRoundTrip | scripts/tftpd.py:24-35 | a well-formed request is understood as meant |
| IntText.DecimalRoundTrip | scripts/tftpd.py:61-64 | int() reads back every str() of a natural number |
| IntText.IntIff | scripts/tftpd.py:61 | int() takes exactly the texts that are, between ASCII white space (9 to 13 and 32), digits with single underscores between them and perhaps a sign in front; it raises for all others |
| IntText.OddCharacterRaises | scripts/tftpd.py:61 | one character of any other kind, wherever it stands, makes int() raise; the separators 28 to 31 and the replacement character are such |
| IntText.SignedRoundTrip | scripts/tftpd.py:61 | a sign and surrounding white space are read as meant |
| IntText.UnderscoresDoNotCount | scripts/tftpd.py:61 | underscores do not change the value |
| IntText.DecimalIsCanonical | scripts/tftpd.py:62-64 | str() writes no zero in front of a number |
| TftpOptions.AcceptedIsWellFormed | scripts/tftpd.py:59-66 | whatever the request holds, the accepted list can be encoded: distinct lower-case keys, NUL-free values |
| TftpOptions.BlksizeAgreed | scripts/tftpd.py:54-74 | the block size the client reads from the OACK (or assumes without one) is the server's, lies in 8..65464, and is the requested one whenever that is in range |
| TftpOptions.OackAnswersKnown | scripts/tftpd.py:59-74 | the client reads answers to exactly those options that it asked for and the server knows, and gets no OACK when there are none |
| TftpOptions.OackAnswersTrue | scripts/tftpd.py:63-66 | tsize is answered with the file's size, and a timeout with itself exactly when it is ASCII |
| TftpOptions.TimeoutIsTrueIff | scripts/tftpd.py:57-74 | what the client reads as the acknowledged timeout is the wait of the transfer if and only if it asked for five seconds |
| TftpHandler.Agree | scripts/tftpd.py:55-66 | there is an agreement unless blksize is asked for with a text that int() does not take; the block size is the legal one nearest to what was asked for, or 512, and the wait is five seconds; each option asked for and known, and no other, gets one answer: those for blksize and tsize read back as what the transfer uses, the one for timeout is the request's own text |
| TftpHandler.BuildOack | scripts/tftpd.py:70-73 | the OACK packet built in the loop is the encoded list, and there is none for an empty list |
| TftpHandler.ErrorPacket | scripts/tftpd.py:20-21 | 0, 5, the code big-endian, the message and a NUL |
| TftpHandler.Handle | scripts/tftpd.py:46-114 | the whole request: error packet for a missing file; the uncaught exception, with nothing sent, exactly for an existing file with a blksize text that int() does not take; otherwise the transfer with the negotiated parameters, on a socket that waits five seconds |
| TftpNetwork.AckDecides | scripts/tftpd.py:97-99 | with an ACK less than 65536 blocks old the server goes on exactly for its own block and resends otherwise |
| TftpNetwork.DataDecides | scripts/tftpd.py:90 | with DATA less than 65536 blocks old the client takes exactly the next block, answers its last one again and drops the rest; a client that has finished takes nothing |
| TftpNetwork.StepKeepsInv | scripts/tftpd.py:85-115 | every event, timeouts at either end included, keeps: the ends at most one block apart, the client holding exactly the blocks it counted, every datagram carrying what its number says |
| TftpSafety.ReorderSafety | scripts/tftpd.py:85-115 | over channels that lose, copy and reorder, for files of any length: as long as no event meets a datagram old enough to be mistaken, the client's bytes are a prefix of the file, and done means all of it |
| TftpSafety.OrderedIsFresh | scripts/tftpd.py:90-99 | in-order channels never hold a datagram old enough to be mistaken |
| TftpSafety.StepKeepsOrder | scripts/tftpd.py:85-115 | ACKs, the client's last block, DATA, the server's block: nondecreasing and at most one apart after every in-order event |
| TftpSafety.FifoSafety | scripts/tftpd.py:85-115 | over in-order channels that lose and copy, for files of any length: the client's bytes are a prefix of the file in every reachable state, and done means that the client has all of it and knows it |
| TftpBudget.Conservation | scripts/tftpd.py:91-108 | while the server waits, DATA in flight + ACKs in flight + losses = 1 + timeouts + copies + answers that the client repeated on its own timeouts |
| TftpGiveUp.GivingUpCosts | scripts/tftpd.py:91-108 | on a network that loses, copies, delays and reorders, for files of any length: giving up takes at least five server timeouts, copies and client repeats in all; losses alone never lead to it |
| TftpGiveUp.GivingUpIff | scripts/tftpd.py:91-108 | a run of at most that cost gives up if and only if the cost allowed is at least five |
| TftpBudget.AcceptedAfter | scripts/tftpd.py:91-99 | on a network that only delays, a block is accepted after exactly 1 + strays sends, where the strays are the server's timeouts and those of the client while on earlier blocks |
| TftpBudget.ReliableBudget | scripts/tftpd.py:91-108 | there, a stopped transfer is done if and only if there were at most four strays in all, and given up if and only if there were at least five |
| TftpBudget.RunsAreBounded | scripts/tftpd.py:88-112 | no run has more than 15 events per block and five more, plus three for each copy and two for each client timeout |
| TftpBudget.NeverStuck | scripts/tftpd.py:91-99 | on a network that only delays, while the server waits a datagram is there to be delivered |
| TftpBudget.ReliableDelivery | scripts/tftpd.py:85-114 | there, every state with at most four timeouts at the two ends together leads by deliveries alone to done with the whole file at the client |
| TftpStale.StaleAckEndsTransfer | scripts/tftpd.py:90-99 | for every file of 65537 blocks or more, and after an OACK for 65536 too, a run exists in which one old ACK ends the transfer before its last block arrived |
| TftpStale.StaleDataCorruptsFile | scripts/tftpd.py:90 | for every file of more than 65536 blocks a run exists in which the client takes an old DATA packet for the last one |
| TftpStale.SafeIffFits | scripts/tftpd.py:85-115 | over channels that lose, copy and reorder, every reachable state of a transfer is safe if and only if the file is shorter than `65536 * blksize` bytes, and with an OACK if and only if it has at most `65535 * blksize` bytes |
| TftpLink.LoopsRefineRuns | scripts/tftpd.py:70-114 | a run in which the server stops is a run of the loops on the answers they received: the same outcome, and the same packets as the run put on the wire |
| TftpLink.MalformedIff | scripts/tftpd.py:81-97 | a session ends in the uncaught unpacking error exactly when some answer that reaches the waiting server is shorter than two bytes in the OACK phase or four bytes later |
| TftpLink.RequestIsServed | scripts/tftpd.py:46-114 | from the request's bytes on: equal block sizes, a prefix always, and the whole file when the loops report done |
| CpuPllMath.Narrowing | patches/kernel/0010-clk-hisilicon-hi3798mv200-retune-the-CPU-PLL-on-a-rate-change.patch:182-183 | the divider is never cut by its 32-bit type, for all dividers and any parent from 863 Hz on |
| CpuPllMath.PickIsNearest | patches/kernel/0010-clk-hisilicon-hi3798mv200-retune-the-CPU-PLL-on-a-rate-change.patch:170-189 | no divider in 1..4095 comes closer to the clamped request, clamps included |
| CpuPllMath.PickIsClose | patches/kernel/0010-clk-hisilicon-hi3798mv200-retune-the-CPU-PLL-on-a-rate-change.patch:170-189 | within half a divider step plus rounding of the clamped request when the range does not bind |
| CpuPllMath.PickIsMonotone | patches/kernel/0010-clk-hisilicon-hi3798mv200-retune-the-CPU-PLL-on-a-rate-change.patch:170-189 | a higher request never gets a lower rate |
| CpuPllMath.PickIsIdempotent | patches/kernel/0010-clk-hisilicon-hi3798mv200-retune-the-CPU-PLL-on-a-rate-change.patch:170-204 | a granted rate is granted again, with the same divider, even where it lies outside the clamp |
| CpuPllMath.CeilingIsExact | patches/kernel/0010-clk-hisilicon-hi3798mv200-retune-the-CPU-PLL-on-a-rate-change.patch:121-129 | at 24 MHz a divider gives at most 1.2 GHz exactly up to 50 times the divider product |
| CpuPllMath.RequestsStayBelowCeiling | patches/kernel/0010-clk-hisilicon-hi3798mv200-retune-the-CPU-PLL-on-a-rate-change.patch:170-189 | no request gets more than 1.2 GHz, for every divider product |
| CpuPllMath.BoardPicks | docs/cpufreq.md:148-155 | with product 4 a request gets the nearest multiple of 6 MHz to its clamp to 400 MHz and 1.2 GHz, from the divider 67 to 200 |
| CpuPllMath.PickIsPositive | patches/kernel/0010-clk-hisilicon-hi3798mv200-retune-the-CPU-PLL-on-a-rate-change.patch:177-189 | from a parent of 863 Hz on, a rate of 0, which means refusal, is picked only when there is no divider |
| CpuPllMath.FixedPointsOfProductFour | docs/cpufreq.md:148-155 | with product 4 the exactly reachable rates are the multiples of 6 MHz within the limits, and only those |
| CpuPll.BudgetSuffices | patches/kernel/0010-clk-hisilicon-hi3798mv200-retune-the-CPU-PLL-on-a-rate-change.patch:229-239 | with a step per poll and a busy bit low on arrival, the poll budget suffices from any 12-bit start |
| CpuPll.Divider | patches/kernel/0010-clk-hisilicon-hi3798mv200-retune-the-CPU-PLL-on-a-rate-change.patch:138-147 | the divider product from the register fields is at most 7 * 7 * 63 |
| CpuPll.FieldsAreRead | patches/kernel/0010-clk-hisilicon-hi3798mv200-retune-the-CPU-PLL-on-a-rate-change.patch:138-165 | for all values of the three fields, the boot divider and every other bit, the product and the boot divider are those that the two words are composed of |
| CpuPll.BoardRegisters | docs/cpufreq.md:96-105 | the documented registers give product 4, and 1.2 GHz at the live divider 200 whatever the boot divider says |
| CpuPll.SafeMeansBelowCeiling | patches/kernel/0010-clk-hisilicon-hi3798mv200-retune-the-CPU-PLL-on-a-rate-change.patch:149-168 | the linear bound that walks keep is the 1.2 GHz bound on the live rate, boot divider included |
| CpuPll.Pll.RecalcRate | patches/kernel/0010-clk-hisilicon-hi3798mv200-retune-the-CPU-PLL-on-a-rate-change.patch:149-168 | the reported rate is at most 1.2 GHz while the dividers are safe; when the live divider is the one for a request it is the rate granted for that request; and inside the limits it leads back to the live divider |
| CpuPll.Pll.DetermineRate | patches/kernel/0010-clk-hisilicon-hi3798mv200-retune-the-CPU-PLL-on-a-rate-change.patch:191-204 | a granted rate is that of the divider nearest to the request, at 24 MHz at most 1.2 GHz, and is granted again with the same divider (for a parent of more hertz than the divider product); from 863 Hz on a request is refused, and left as it was, exactly when there is no divider |
| CpuPll.Pll.Strobe | patches/kernel/0010-clk-hisilicon-hi3798mv200-retune-the-CPU-PLL-on-a-rate-change.patch:221-227 | the enable bit always rises, whatever it was, so a walk to the new target always starts |
| CpuPll.Pll.Poll | patches/kernel/0010-clk-hisilicon-hi3798mv200-retune-the-CPU-PLL-on-a-rate-change.patch:229-239 | success means arrival with the busy bit low; failure means 10001 reads, none of which showed that |
| CpuPll.Pll.SetRate | patches/kernel/0010-clk-hisilicon-hi3798mv200-retune-the-CPU-PLL-on-a-rate-change.patch:206-245 | for any parent: the registers written, arrival on success, untouched registers on -22, and -110 only after reads that show that the hardware fell behind; at 24 MHz the ceiling is kept |
| CpuPll.ServeRequests | patches/kernel/0010-clk-hisilicon-hi3798mv200-retune-the-CPU-PLL-on-a-rate-change.patch:149-245 | over any requests, timed-out walks included, the cores never run above 1.2 GHz at any step, and each success runs at the rate that was promised |
| NecDecoder.DecodeNec | scripts/tvbox-panel.py:126-190 | the decoder computes its specification on every edge list |
| NecDecoder.ReadBits | scripts/tvbox-panel.py:148-162 | the bit loop reads the longest run of pairs in band, at most 32 |
| NecDecoder.Combine | scripts/tvbox-panel.py:167-176 | shifting bits into place gives the little-endian value |
| NecDecoder.ComplementsSum | scripts/tvbox-panel.py:187-189 | two bit strings are complements exactly when their values add up to all ones |
| NecDecoder.FrameIffCarries | scripts/tvbox-panel.py:138-190 | a frame with raw word w is reported exactly for the bursts that pass every per-edge check for the bits of w |
| NecDecoder.CarriesOneWord | scripts/tvbox-panel.py:148-164 | no burst passes the checks for two words |
| NecDecoder.PartialIffLeading | scripts/tvbox-panel.py:148-165 | "partial n" is reported exactly when n leading pairs are in band and the next is not |
| NecDecoder.RepeatIff | scripts/tvbox-panel.py:138-144 | a repeat is reported exactly for a first pulse of 6300 to 11700 µs and a second edge of 1575 to 2925 µs |
| NecDecoder.NothingIff | scripts/tvbox-panel.py:138-146 | nothing is reported exactly without such a pulse, or with a second edge in neither 1575 to 2925 nor 3150 to 5850 µs |
| NecDecoder.PairBands | scripts/tvbox-panel.py:150-162 | the bands of a pair in µs: 336 to 784 for the mark, 336 to 784 for a 0 and 1183 to 2197 for a 1 |
| NecDecoder.FrameFields | scripts/tvbox-panel.py:167-190 | address and command are bytes 0 and 2 of the raw word, and the two checks compare them with the complements of bytes 1 and 3 |
| LircReader.LircReader.Flush | scripts/tvbox-panel.py:247-264 | the burst without its trailing spaces, numbered and decoded, or nothing |
| LircTheory.WordsMean | scripts/tvbox-panel.py:222-242 | what a word means by its top byte and its microseconds, every record type included |
| LircTheory.DurationIsSum | scripts/tvbox-panel.py:261 | the duration of a burst is the sum of the times of all its edges |
| LircReader.LircReader.TakeWord | scripts/tvbox-panel.py:222-245 | one word has the effect of one step |
| LircReader.LircReader.Run | scripts/tvbox-panel.py:216-245 | the loop publishes the bursts of the step function over all words, in order and numbered |
| LircTheory.PulsesConserved | scripts/tvbox-panel.py:216-264 | the pulses in published bursts and those still buffered are the pulses received, in order |
| LircTheory.BurstsAreWellShaped | scripts/tvbox-panel.py:228-252 | every burst starts and ends with a pulse, has at most 2048 edges and no inner space of 15 ms or more |
| LircTheory.ReaderRefinesCutBatch | scripts/tvbox-panel.py:216-264 | for every stream the reader equals: split at separators, cut each stretch at every 2048 edges from a pulse on, strip spaces, drop empties |
| LircTheory.WordsGiveGoodBursts | scripts/tvbox-panel.py:216-264 | so for the bursts from any words, with what is buffered below the size guard |
| LircTheory.ReaderRefinesBatch | scripts/tvbox-panel.py:216-264 | if no stretch reaches the size guard the stream reader equals: split at separators, strip spaces, drop empties |
| LircTheory.EmissionDecodes | scripts/tvbox-panel.py:126-190 | an emission with any timing inside the bands decodes to its code |
| LircTheory.NominalDecodes | scripts/tvbox-panel.py:126-190 | the ideal NEC encoder's output lies in all bands, and the decoder undoes the encoder for every 32-bit word and for the repeat code |
| LircTheory.CodesRoundTrip | scripts/tvbox-panel.py:122-264 | any sequence of emitted codes comes out as one numbered event each, in order, decoded, with count and duration of all its edges |
| LircTheory.ReceiveWords | scripts/tvbox-panel.py:216-264 | on any words the reading loop publishes well-shaped bursts only, each with its number, its count of edges, the sum of their times and its decoding, and the pulses in its new events and its buffer are those received, in order |
| LircTheory.ReceiveCodes | scripts/tvbox-panel.py:216-264 | the same on the reading loop: fed the words of any emissions, it has published one event each, in order, decoded and numbered on from its counter, and its buffer is empty |
| EventBus.EventBus.Publish | scripts/tvbox-panel.py:103-114 | an undisturbed publish reaches every subscriber, costs a full queue its oldest event, and never raises |
| EventBusRuns.OrderAfterDrop | scripts/tvbox-panel.py:110-111 | dropping the oldest event keeps the order of what was read and what is queued |
| EventBusRuns.AdvanceKeepsOk | scripts/tvbox-panel.py:103-114 | one queue operation of one publisher keeps bounds and orders for all subscribers |
| EventBusRuns.EveryInterleaving | scripts/tvbox-panel.py:88-114 | in every interleaving no queue exceeds its bound, and read plus queued holds each publisher's events once and in order |
| EventBusRuns.UninterruptedPublish | scripts/tvbox-panel.py:103-114 | in any reachable state, a publish without another step in between does to every subscriber what the bus as a class does, and nothing to other queues |
| EventBusRuns.UnsubscribedIsQuiet | scripts/tvbox-panel.py:99-114 | in any interleaving, a queue gets no event of a publish that begins after its unsubscribe |
| EventBusSingle.SinglePublisher | scripts/tvbox-panel.py:103-114 | with one publisher the second put never finds the queue full, every queue is a contiguous stretch of events, and between publishes it ends with the newest |
| EventBusSingle.OnlyOldestDropped | scripts/tvbox-panel.py:103-114 | if whenever the publisher takes a step the consumer has taken fewer than maxsize events since the publish began, what left at the front plus what is queued is everything since subscription, without a gap |
| EventBusSingle.GapIffMissed | scripts/tvbox-panel.py:103-114 | with one publisher and any consumers, taken + queued + missed = offered |
| EventBusSingle.GapIffEmptied | scripts/tvbox-panel.py:103-114 | there is a gap if and only if in some publish exactly maxsize consumer steps on the queue fall between the failed put on it and its get_nowait |
| EventBusFull.FullCanEscape | scripts/tvbox-panel.py:110-114 | with any number of publishers from two on and any limit a run exists in which the second put raises |
| EventBusFull.FullEscapesIff | scripts/tvbox-panel.py:103-114 | queue.Full leaves publish in some run if and only if the queues have a limit and there are at least two publishers |
| EventBusFull.NewestCanBeMissed | scripts/tvbox-panel.py:110-114 | for every limit, with one publisher a run exists in which the consumer empties a full queue in the middle of a publish and the newest event, and only that one, is lost |
| FdtScan.HeaderDecides | scripts/extract-dtb.py:26-35 | at a magic the header tests accept exactly the real trees |
| FdtScan.HeaderIsRead | scripts/extract-dtb.py:25-35 | a header is read as it was written, wherever it stands in the image |
| FdtScan.WrittenTreeIff | scripts/extract-dtb.py:67-91 | a written header makes a tree of what follows exactly if it says version 16 or 17 and a size above 1024 that the image holds |
| FdtScan.MagicDoesNotOverlap | scripts/extract-dtb.py:76 | the magic cannot start again inside itself |
| FdtScan.JumpLosesNothing | scripts/extract-dtb.py:73-76 | going on four bytes after a magic loses no tree |
| FdtScan.TreesAreAll | scripts/extract-dtb.py:77-84 | an offset is in the reference list exactly when a tree starts there |
| FdtScan.TreesStartAt | scripts/extract-dtb.py:72-76 | the reference list is strictly increasing |
| FdtScan.Find | scripts/extract-dtb.py:73-75 | the first magic from an offset on, or -1 if there is none |
| FdtScan.ExtractAppended | scripts/extract-dtb.py:67-91 | the files written, numbered from 0, are exactly the reference list's trees with their bytes |
| BannerWindow.CompletedIsVisible | scripts/uart-term.py:77 | a pattern that a read completes lies in the window |
| BannerWindow.RecentComposes | scripts/uart-term.py:77 | cutting the window at each read is cutting the whole history |
| BannerWindow.StepAgrees | scripts/uart-term.py:69-86 | a read of up to 4078 bytes keeps: armed exactly when a banner came since the last reset, reset exactly on a read that completes an end pattern |
| BannerWindow.Catcher.Turn | scripts/uart-term.py:69-86 | one read of any size does what the step function says; one of up to 4078 bytes keeps the agreement with the full history, and 64 and 8 Ctrl+C go out exactly for the banners in it |
| BannerWindow.Watch | scripts/uart-term.py:66-86 | the loop computes the detector over any chunking, and with reads of up to 4078 bytes it ends armed exactly when a banner came since the last end pattern |
| BannerWindow.LongerReadsCanMiss | scripts/uart-term.py:70-81 | with a read of 4079 bytes the detector stays armed past an end pattern |
| BannerWindow.AgreementIff | scripts/uart-term.py:66-86 | the detector is right about every chunking into reads of up to n bytes if and only if n is at most 4078 |
| BannerWindow.PatternsAre | scripts/uart-term.py:79-84 | two texts are banners and three end the watch |
| BannerWindow.EachPatternCounts | scripts/uart-term.py:77-84 | a first read arms the detector exactly if it holds one of the two banners and none of the three end patterns |
| GpioPanel.SetSelects | scripts/tvbox-gpio-helper.py:132-143 | the masked write changes the level of its own pin, if that is an output, and nothing else |
| GpioPanel.DirSelects | scripts/tvbox-gpio-helper.py:114-129 | a direction change touches one pin |
| GpioPanel.BitIsShift | scripts/tvbox-gpio-helper.py:120-138 | the masks are 1 << pin |
| GpioPanel.Panel.Helper | scripts/tvbox-gpio-helper.py:114-157 | a call with bad arguments raises and changes nothing; one that reaches the registers does what it is told (the pin's direction, the level of an output, a bank's directions) and touches no other pin; it raises exactly when its arguments are bad or it failed before or after its effect |
| GpioPanel.Panel.GpioPulse | scripts/tvbox-panel.py:443-457 | the pulse with its cleanup, for every way its calls can go: done exactly when all of them work; where both driving calls work the pin is held high and no other is touched |
| GpioPanel.DrivenHigh | scripts/tvbox-panel.py:451-454 | when the cleanup begins the pin is a high output if both calls worked, and its level is untouched if they did not |
| GpioPanel.Panel.HandleGpio | scripts/tvbox-panel.py:926-957 | one request: refused, with nothing changed, exactly for lines (5,0) and (5,2); a direct request leaves the direction asked for, and the level asked for if the pin is an output by then, as far as its calls get through, and touches no other pin; done exactly when every call asked for is good and works |
| GpioPanel.PulseTouchesOnePin | scripts/tvbox-panel.py:443-457 | however the calls go, no other pin changes direction or level |
| GpioPanel.ReservedLinesKept | scripts/tvbox-panel.py:375-378 | over any sequence of requests with any failures, lines (5,0) and (5,2) keep direction and level |
| GpioPanel.Panel.Serve | scripts/tvbox-panel.py:926-957 | the panel serving requests one at a time keeps both reserved lines |
| GpioPanel.DirectionsRestored | scripts/tvbox-panel.py:443-457 | all 80 directions are as before exactly when the cleanup gets through or nothing had changed |
| GpioPanel.PulsesKeepDirections | scripts/tvbox-panel.py:443-457 | sequences of pulses whose cleanups get through keep all directions |
| GpioPanel.PulseIsUndone | scripts/tvbox-panel.py:444-449 | with a cleanup that gets through, the pin is back the way it was exactly when its level bit was clear or the pulse never drove it |

## Left out

- Sockets, sender addresses, the file system and path normalisation, and the outer loop of the TFTP server: files are a map from requested name to contents, and there is one client.
- Python's limit of 4300 digits for int(): a request has at most 2046 bytes after its opcode.
- A file that changes while it is sent: the contents and the size are fixed for a transfer.
- The text of client errors and of all printed messages.
- CpuPllMath.PickIsMonotone: states it, as the other results for a general parent, from 863 Hz on; below that the 32-bit divider can be cut, which no board clock reaches.
- Overflow of 64-bit products in the PLL arithmetic: it needs a parent of more than 2^52 Hz.
- The clock framework, the mux flag and the registration of the PLL: configuration around the modelled operations.
- LircReader.LircReader.Run: the time stamp of a burst and the error event for a device that cannot be opened are not modelled.
- The input reader, the LED interface, the HTTP server and the page of the panel: device and user-interface plumbing that would only add easy members.
- CpuPll.Pll.SetRate: promises the 1.2 GHz ceiling for the one 24 MHz oscillator that the PLL is registered with; rounding can lift the rate above it for another parent, by at most half a divider step and the rounding where the nearest divider is at least 1 (`CpuPllMath.PickIsClose`), and by more for a parent so fast that it is not.
- The poll macro of the kernel is taken as 10000 delays of 10 µs with a read before each and one after the last.
- `GpioBaseline`: nothing captures a baseline, so its restore request has no masks to write.
- Pulses that overlap in time on one bank: the remembered directions could be another pulse's.
- The levels of input pins, which come from outside, and the alternate-function register, which no command writes.
- `extract_dtbo` and the decompilation with dtc: a table walk without a search, and an external tool.
- Payload values of a GPIO request that do not convert to text or number: the panel answers 400 for them, after a direction that came first.
- The terminal side of the serial console, `scripts/uart-cmd.py`, the other patches, device trees and shell scripts.
