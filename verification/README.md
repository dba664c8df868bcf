# Verified models of a small system on a chip

This project models, in Dafny, the parts of a Verilog and C++ system on a chip whose correctness spans many clocks,
many calls, or two machines that must agree, and proves what each of them is for.

Every hardware module is a step function on its registers, one step for each clock, and a class in the form of the
source: its fields are the registers, and its `Clock` method goes through the clocked blocks and is proved
to take the registers exactly where the step function takes them (`old(State())` to `State()`). The theorems are about
runs of the step functions, for every input stream. Every lemma turns Dafny's automatic induction off, so that each
induction is written out. Host code that works in loops on buffers and tables is a class
with those buffers and tables (`Ttybus.Tty`, `ScopeReader.Reader`, `SdramSim.Sdramsim`), or a method with those loops
(`SdCrc`), proved against a specification function.

| Files | What they model |
|---|---|
| `SdramController`, `SdramChip`, `SdramSystem` | The SDRAM controller, the memory chip, both joined through the two input latches, and a scoreboard |
| `SdramInvariant`, `SdramTheorems`, `SdramMemory` | Its inductive invariant; start-up, legality, deadlines, order; read-your-writes; that every request gets in |
| `SdramRtl`, `SdramSim` | Controller and chip simulator as objects |
| `WbuCode`, `WbuHost`, `Ttybus`, `WbuForward` | The debug link towards the board: six-bit prefix code, host encoder, and what arrives |
| `WbuInput`, `WbuInputProof`, `WbuInputRtl` | The clocked receiver of codewords |
| `WbuExec`, `WbuExecProof`, `WbuExecErrors`, `WbuExecRtl`, `WbuLink` | The bus executor; bus errors; a whole session from host calls to the bus |
| `WbuReply`, `WbuCompress`, `WbuCompressProof`, `WbuCompressSearch`, `WbuCompressRtl` | Replies and their clocked compressor |
| `WbuOutput`, `WbuOutputProof`, `WbuOutputRtl` | Codewords to characters, with back pressure and newlines |
| `WbuIdle`, `WbuIdleRtl` | The stage that puts notes of idleness and of interrupts among the replies |
| `WbuReplyPath`, `WbuRead`, `WbuReturn`, `WbuSession`, `WbuCalls` | Both joined; the host's reader; whole sessions of calls, there and back |
| `Uart`, `UartProof`, `UartLoop`, `UartRtl` | Serial transmitter and receiver, joined by a wire |
| `Scope`, `ScopeProof`, `ScopeStop`, `ScopeReader`, `ScopeExample`, `ScopeRtl` | The run-length compressing scope, and its software |
| `Pwm`, `PwmRtl` | The bit-reversed pulse-width modulator |
| `Crc`, `SdCrc`, `SdCrcRtl` | The SD card checksums |

## What the code does differently from what it says

Where a theorem of the project states it, the theorem is named, with the exact condition where there is one.

- `encode_address` has a band of addresses that does not arrive: marker 0x0d promises four digits, and five are sent
  (sw/ttybus.cpp:368-373). It happens exactly when the address is known, the word distance is from 2^17 to below 2^23,
  and the word address is above 0xffffff (`WbuForward.AddressDelivered`, with an address in `WbuForward.BandWitness`).
  The distance is unsigned, so nothing before the current address is ever sent relative to it.
- A read of eight words at one address is sent as 0x2e, which is the end of a write. A fixed-address read arrives
  exactly when no block of it has that length, so exactly when its length is not 8 modulo 512
  (`WbuForward.ReadLength`, `WbuForward.ReadArrivesWhen`).
- A write of no words sets the host's address and sends nothing: the ends agree afterwards exactly when the write is to
  the address the host knows already (`WbuForward.EmptyWrite`).
- `encode_address` restarts the host's table of read words for a write too, and the board does not announce its address
  after a write, so that a read that then sends no address can return wrong words. A session always returns what was
  meant exactly when it is careful: no read that sends no address comes between a write to a new address and the next
  read that sends one (`WbuSession.CarefulExactly`, with a session in `WbuSession.CarelessSession`). One reply after such
  a restart is right exactly when the table happens to hold the same word in two places (`WbuSession.ResetReads`).
- The comments of sw/devbus.h:83-121 write the i-th address as `a+i`; the code steps by four bytes, one word. The board
  compares word addresses with 32 bits and the host with 30, so they agree modulo 2^30 words.
- The compressor's limit 10'h521 is 289 after truncation, so references reach 288 words back and no further
  (rtl/wbucompress.v:251).
- The compressor's search stands still at table places from 512 on until the table has filled up
  (rtl/wbucompress.v:200-206): with 514 to 1022 raw words since the last address it finds no word but the last one. A
  word that is held up long enough becomes a reference exactly otherwise (`WbuCompressSearch.RepeatOffered`).
- A bus error ends a read exactly when it does not come as the last strobe of the read is accepted. Then the later
  assignment of rtl/wbuexec.v:189-195 overrides the earlier one, the error is told, and the executor waits for one
  acknowledgment more than will come (`WbuExecErrors.ReadEndsWhen`, `WbuExecErrors.ReadHangs`). Where it does end the read,
  the strobe stays for one clock more.
- rtl/wbuidleint.v:113-116 means to make a note of idleness once; the flag for that is cleared a clock after it is set,
  and the note repeats for as long as it is quiet (`WbuIdle.IdleRepeats`).
- rtl/rxuart.v:13-15 promises the frame error with the byte. It is on beside the byte exactly when a second stop bit is
  low: with one stop bit the two never come together (`UartLoop.FrameErrorShown`).
- rtl/wbpwmaudio.v:100 says that the timer runs out every reload_value clocks; it is one clock more (`Pwm.TimerPeriod`).
- A UART with computed parity flags every byte, since the two ends seed the parity differently; the flag is visible
  beside the byte exactly when there are two stop bits (`UartLoop.Loopback`).
- The first word that the scope records after a reset is a run length with no sample before it, and a reset of one
  clock can leave one older word before that (`ScopeProof.ResetStarts`). `getaddresslen` leaves out the run of its first
  word, so it is right exactly when the buffer does not begin with a repeat of more than one (`ScopeReader.LengthRightWhen`,
  with such a buffer in `ScopeExample.BeginsWithRepeat`).
- sw/scopecls.cpp:156-158 says that with no holdoff the triggered item is the very last one. One more sample is recorded
  after it (`ScopeStop.TriggerRecorded`); the compressed branch counts a line before it compares, and so marks the right
  one all the same, whenever the length is right (`ScopeReader.TriggerMarked`).
- The memory simulator ignores the byte mask on the first beat of a write (bench/cpp/sdramsim.cpp:189); the model honours
  it on both. It gives read data three calls after the command, which is the chip's latency of two and the first of the
  two input latches; the model keeps chip and latches apart. Its own refresh check compares an unsigned count with zero
  and cannot fire; `SdramTheorems.RefreshDeadline` takes its place.

## Model

| member | source | states |
|---|---|---|
| SdramRtl.Wbsdram.Clock | rtl/wbsdram.v:114-567 | One clock of the controller, block by block as its clocked blocks do it, start-up and refresh timers, pending request and look-ups, command, acknowledgment barrel and data pins, takes every register where the step function that all theorems are about takes it |
| SdramSim.Sdramsim.Operator | bench/cpp/sdramsim.cpp:7-240 | One call of the simulator takes the chip where `Consume` takes it, failed assertions included, and returns what is driven, or what the chip drove a clock before: data three calls after the read, as the simulator queues them, are the chip's latency of two and one input latch |
| SdramSim.Sdramsim.AgeBanks | bench/cpp/sdramsim.cpp:90-100 | Bank states move on, and a bank open too long is reported |
| SdramSim.AllowedIsLegal | bench/cpp/sdramsim.cpp:136-236 | A command is legal, as the legality theorem means it, if and only if the simulator's assertions on banks and commands allow it and, one check more than the simulator makes, the data pins are not driven from both sides |
| SdramInvariant.InvStep | rtl/wbsdram.v:252-567 | The one-step inductive invariant of controller, latches, chip and scoreboard: kept by every clock, whatever the bus does |
| SdramInvariant.InvAlways | rtl/wbsdram.v:766-818 | The invariant holds on every clock of every run from power-on |
| SdramInvariant.ChipLegal | rtl/wbsdram.v:308-434 | Every command the controller may choose is legal for the chip: transfers only to the open row of a bank activated at least two clocks before, activation only of a closed bank, refresh only with all closed, write data never while read data returns |
| SdramInvariant.ReadPromise | rtl/wbsdram.v:374-407 | A read is commanded only when the chip's two halves at its address hold the word that all earlier writes make, even with a second beat still under way |
| SdramTheorems.StartupCompletes | rtl/wbsdram.v:439-530 | The controller is in operation if and only if at least 20516 clocks have passed, in every run |
| SdramTheorems.CommandsLegal | bench/cpp/sdramsim.cpp:25-236 | No check of the chip monitor fails in any run, in power-up or in operation, nor does the controller drive data while the chip does |
| SdramTheorems.ModeChosen | rtl/wbsdram.v:439-530 | In every run the chip is set to bursts of two, in sequence, with a read latency of two |
| SdramTheorems.QuietInRefresh | rtl/wbsdram.v:292-307 | Nothing but a no-operation is given while a refresh is in progress |
| SdramTheorems.RefreshDeadline | rtl/wbsdram.v:114-140 | Once operating, whatever the bus master does, a refresh command comes within any 635 clocks: the period of 625 and a drain of ten |
| SdramInvariant.DeadlineStep | rtl/wbsdram.v:292-345 | The measure behind the deadline falls on every clock without a refresh |
| SdramTheorems.RestingRefresh | rtl/wbsdram.v:308-345 | Once operating, a bus at rest for 380 clocks sees a refresh in them, before one is due |
| SdramTheorems.RefreshesApart | rtl/wbsdram.v:114-128 | And no refresh comes within 370 clocks after the last of a group |
| SdramTheorems.RefreshTwice | rtl/wbsdram.v:108-140 | A refresh that has come due is given on exactly two clocks running, whatever the bus does |
| SdramTheorems.ServedWithin | rtl/wbsdram.v:183-195 | While the cycle is held, a waiting request has its command on the pins, and its stall is over, within 28 clocks, whatever row, bank and refresh state it meets |
| SdramTheorems.PatienceStep | rtl/wbsdram.v:349-433 | The measure behind that bound falls on every clock that does not serve the request, and the request does not change |
| SdramTheorems.LooksAhead | rtl/wbsdram.v:408-433 | While a request in the last sixteen words of its row is in hand, the bank of the words after it is brought to their row by every clock the request does not need, and not closed again |
| SdramTheorems.OrderKept | rtl/wbsdram.v:183-195 | From any reachable state, transfers seen on the pins, with open row, bank and column read back as an address, are the accepted requests in order |
| SdramTheorems.CountKept | rtl/wbsdram.v:388-407 | Transfers and acknowledgments balance: every transfer is acknowledged once or still in flight |
| SdramTheorems.ExactlyOnceInOrder | rtl/wbsdram.v:374-407 | While the cycle is held, each accepted request makes exactly one transfer, in order, and one acknowledgment, with at most one waiting and six in flight |
| SdramMemory.ReadYourWrites | rtl/wbsdram.v:183-567 | In every run from power-on, the word under each read acknowledgment is, byte by byte, the last one written under the byte selects by the commands before, across bank closes, row changes, refreshes and dropped cycles |
| SdramMemory.ReplayIsLastWritten | rtl/wbsdram.v:530-546 | A memory built write by write under byte selects holds in each byte lane the last byte written to it |
| SdramMemory.RequestsKept | rtl/wbsdram.v:183-195 | The requests behind the commands, with their data and byte selects, are the accepted requests, whole and in order |
| SdramMemory.ReadsAnswered | rtl/wbsdram.v:183-567 | In a held cycle the n-th acknowledgment answers the n-th accepted request, and a read returns the last bytes written by the requests before it or by earlier cycles |
| SdramMemory.NothingToStall | rtl/wbsdram.v:270-274 | In operation, with nothing pending and nothing accepted, the stall is over on the next clock |
| SdramMemory.AcceptedWithin | rtl/wbsdram.v:252-434 | In any run, once 20516 clocks have passed, a cycle that asks for 29 clocks has a request accepted |
| SdramMemory.Throughput | rtl/wbsdram.v:252-434 | And so at least n requests in 29 n clocks, from any operating state |
| WbuCode.HearCode | rtl/wbureadcw.v:66-128 | A codeword is framed as itself, after anything |
| WbuCode.HearApart | rtl/wbureadcw.v:66-128 | Framing goes character by character: what is heard of two pieces is what is heard of the whole, so any concatenation of codes and newlines splits uniquely |
| WbuCode.Value5 | sw/ttybus.cpp:171-178 | The five digits of a thirty-bit number spell that number |
| Ttybus.Tty.constructor | sw/ttybus.h:75-89 | A new link knows no address and has written and read nothing |
| Ttybus.Tty.EncodeAddress | sw/ttybus.cpp:340-424 | Puts the address code that the address theorem is about, refuses a misaligned address, and restarts the table of read words exactly when the address is news |
| Ttybus.Tty.FindMatch | sw/ttybus.cpp:240-251 | Searching the ring of 256 finds the nearest earlier equal word, or none |
| Ttybus.Tty.EncodeWord | sw/ttybus.cpp:252-278 | Puts a reference or the raw word, remembers a raw one, and moves the address |
| Ttybus.Tty.WriteVec | sw/ttybus.cpp:210-307 | Across lines of any number, the device gets the address if it is news, every word in order, and one newline at the end; nothing for no words |
| Ttybus.Tty.PutReadCmd | sw/ttybus.cpp:426-443 | The one or two digits of a read command |
| Ttybus.Tty.Readword | sw/ttybus.cpp:503-635 | From characters and the ring of 1024, returns, throws or starves as the reader on digits does, with the same address, table and index after it |
| Ttybus.Tty.ReadVec | sw/ttybus.cpp:445-493 | Reads in blocks of 512; ends done, misaligned, failed or lost exactly as the replies and the final address say, and has sent the read commands |
| WbuForward.AddressArrives | sw/ttybus.cpp:340-424 | For every aligned address and host state, the code chosen moves the executor to it if and only if the address is outside the band |
| WbuForward.AddressDelivered | sw/ttybus.cpp:340-424 | From any state in which the ends agree, what encode_address sends leaves the executor at the address if and only if it is outside the band |
| WbuForward.BandMisses | sw/ttybus.cpp:368-373 | In the band the board takes four digits for a shorter distance and the fifth for the beginning of something else, and the executor ends elsewhere |
| WbuForward.BandWitness | sw/ttybus.cpp:368-373 | The band is not empty: byte address 0x4080000 after 0x4000000 |
| WbuForward.ShortestCode | sw/ttybus.cpp:340-424 | Outside the band, no code of the receiver for the address, nor for the distance forward to it, is shorter than the one sent |
| WbuForward.RelativeArrives | rtl/wbudecompress.v:80-95 | Relative codes, of one to three payload digits and sign-extended on the board, land on the address meant |
| WbuForward.WriteDecodes | rtl/wbudecompress.v:130-153 | A write code, raw or by reference, decodes to its word, and both histories grow alike |
| WbuForward.ReadLength | rtl/wbudecompress.v:97-102 | For every length below 520 a read code decodes to its length and kind if and only if it is not eight words at one address, and that one decodes to the end of a write |
| WbuForward.ReadArrivesWhen | sw/ttybus.cpp:426-493 | A read makes the per-word loop's bus reads if and only if no block of it is unsayable |
| WbuForward.EmptyWrite | sw/ttybus.cpp:295-307 | Where the host knows its address, an empty write leaves the ends in step if and only if it is to that address |
| WbuForward.EmptyWriteUntold | sw/ttybus.cpp:295-307 | Where it knows none, it cannot tell: the same host may be in step afterwards with one board and not with another |
| WbuForward.CallArrives | sw/devbus.h:83-121 | One call makes exactly the bus operations of its per-word loop, and leaves host and board agreeing on address and table |
| WbuForward.SessionArrives | sw/devbus.h:83-121 | So does every session of calls, of any length |
| WbuInput.SameCode | rtl/wbutohex.v:55-76 | The board's digit map is the host's, for every character |
| WbuInputRtl.Wbutohex.Clock | rtl/wbutohex.v:55-76 | One clock of the character map |
| WbuInputRtl.Wbureadcw.Clock | rtl/wbureadcw.v:66-128 | One clock of the framing registers |
| WbuInputRtl.Wbudecompress.Clock | rtl/wbudecompress.v:56-153 | One clock of the table, the expansion registers and the output word |
| WbuInputProof.StoreAgrees | rtl/wbudecompress.v:56-78 | Although every codeword is stored at the write address, from any starting pointer the entries that may be referred to stay those written |
| WbuInputProof.ExpandMeans | rtl/wbudecompress.v:80-153 | The word expanded by bit fields means what its digits mean |
| WbuInputProof.AnyTable | rtl/wbudecompress.v:56-78 | Any quiet state of the registers, with any table contents and pointer, agrees with an empty history |
| WbuInputProof.LineHeard | rtl/wbuinput.v:43-67 | Clock by clock, through four pipelined stages, any character stream with six idle clocks between characters comes out as the commands that the character-level receiver hears |
| WbuExecRtl.Wbuexec.Clock | rtl/wbuexec.v:93-353 | One clock of the executor's state machine and the counters beside it |
| WbuExecProof.InvInitially | rtl/wbuexec.v:93-101 | A resting executor meets its invariant |
| WbuExecProof.InvStep | rtl/wbuexec.v:93-353 | The executor's invariant, tying r_len, last-read flags and acknowledgment count to the transfers still open |
| WbuExecProof.ExecutorExact | rtl/wbuexec.v:102-353 | At every moment of every legal run, bus operations done and still to do are together those asked for, in order; so are replies; and replied data are those fetched |
| WbuExecProof.ReadBurstExact | rtl/wbuexec.v:170-252 | A read of n makes n strobes at the right addresses and n data words in acknowledgment order, announces the address if it is news, and advances it by n or not at all |
| WbuExecProof.CycleHeld | rtl/wbuexec.v:228-252 | The cycle line falls only after the last acknowledgment, with nothing left to do or to say |
| WbuExecProof.WorkStep | rtl/wbuexec.v:170-252 | Each clock on which the bus moves uses up some of the work left |
| WbuExecProof.BusyEnds | rtl/wbuexec.v:306-353 | However the bus stalls and acknowledges, a command ends within a bounded number of useful clocks |
| WbuExecErrors.ErrorTold | rtl/wbuexec.v:170-295 | Every error on the bus is answered with a bus-error word on the next clock, in every state that holds the cycle |
| WbuExecErrors.ReadEndsWhen | rtl/wbuexec.v:170-196 | An error ends a read if and only if it does not come as the last strobe is accepted, and then the strobe stays for one clock more |
| WbuExecErrors.ReadHangs | rtl/wbuexec.v:170-252 | After an error that comes as the last strobe is accepted, the executor stays busy for ever, whatever acknowledgments the open transfers get, without another error or a reset |
| WbuExecErrors.ReadRecovers | rtl/wbuexec.v:170-196 | After any other error in a read the executor is ready again two clocks later |
| WbuExecErrors.WaitRecovers | rtl/wbuexec.v:228-252 | So it is after an error while the last answers are awaited |
| WbuExecErrors.WritesAbandoned | rtl/wbuexec.v:197-296 | An error in a burst of writes is told once; the writes that follow reach no bus and get no reply, and the end of the burst leaves the executor ready, with nothing open |
| WbuExecErrors.BurstBroken | rtl/wbuexec.v:253-296 | A word that does not belong in a burst ends it with an error word, and is itself lost |
| WbuExecErrors.ResetRests | rtl/wbuexec.v:93-100 | From any registers a reset is announced and leaves the executor ready |
| WbuLink.SessionCommands | rtl/wbuinput.v:43-67 | The words out of the clocked receiver are exactly the session's commands, and each comes when the executor may take it |
| WbuLink.SessionOnHardware | sw/devbus.h:83-121 | From host calls through framing, decompression and execution on clocked hardware, with any stalls, the bus sees exactly the per-word loops, and host and board agree when the executor rests |
| WbuIdleRtl.Wbuidleint.Clock | rtl/wbuidleint.v:57-129 | One clock of the stage that puts notes among the replies |
| WbuIdle.NotesBetween | rtl/wbuidleint.v:88-122 | However busy the next stage is, what goes on is the replies taken and the notes made, each once and in their order |
| WbuIdle.TakenInTime | rtl/wbuidleint.v:88-122 | A reply that is offered is taken within three clocks on which the next stage is free |
| WbuIdle.NoInterrupts | rtl/wbuidleint.v:59-65 | Without an interrupt there is no note of one |
| WbuIdle.InterruptTold | rtl/wbuidleint.v:108-129 | An interrupt, however short, is told within four clocks if no reply comes first |
| WbuIdle.ToldOnce | rtl/wbuidleint.v:124-129 | While the line stays raised after that it is not told again |
| WbuIdle.NoEcho | rtl/wbuidleint.v:59-65 | There are no more notes of interrupts than clocks on which one was raised, and at most one for what had not been told before, however long the notes are held up |
| WbuIdle.NotBefore | rtl/wbuidleint.v:68-86 | No note of idleness is made within 799063683 clocks of quiet after traffic |
| WbuIdle.IdleRepeats | rtl/wbuidleint.v:78-122 | While it stays quiet there is such a note at least every 799063686 clocks, with the bus state of its clock |
| WbuCompressRtl.Wbucompress.Clock | rtl/wbucompress.v:79-283 | One clock of the pipelined search, the table and the word in hand |
| WbuCompressProof.TableStep | rtl/wbucompress.v:140-176 | The ring of 1024 holds the raw words passed on since the last address |
| WbuCompressProof.InvStep | rtl/wbucompress.v:123-283 | Table, search, comparison, match and word in hand stay sound on every clock under any busy line |
| WbuCompressProof.OutputFaithful | rtl/wbucompress.v:234-283 | What is offered for output on any clock is the word itself or a reference k from 1 to 288 whose k-th most recent raw word is equal |
| WbuCompressProof.ReferenceMeans | rtl/wbucompress.v:256-283 | Each form of reference, last, short or long, decodes on the host to the k-th most recent word with the increment kept |
| WbuCompressProof.ShortenKeeps | rtl/wbucompress.v:79-104 | Shortening an address changes its length and not its meaning |
| WbuCompressProof.FaithfulMeans | rtl/wbucompress.v:256-283 | A faithful output is understood as the word in hand |
| WbuCompressProof.CompressionLossless | rtl/wbucompress.v:79-283 | Over every run and busy schedule, the decoded output is the input messages in order, short of the one in hand |
| WbuCompressProof.AddressRestarts | rtl/wbucompress.v:140-176 | Passing an address on establishes the invariant from any registers whatever |
| WbuCompressSearch.SearchInvStep | rtl/wbucompress.v:178-208 | What a new search relies on, that the table has every word until it has filled up and that the end of the search is not marked too early, is kept by every clock |
| WbuCompressSearch.RepeatOffered | rtl/wbucompress.v:9-20 | A raw word equal to one in the table, the nearest k places back, and held up for k + 3 clocks, is offered as the reference to that one if and only if k is at most 288 and k is one or the words sent raw are at most 513 or at least 1023; otherwise as itself |
| WbuOutputRtl.Wbudeword.Clock | rtl/wbudeword.v:52-98 | One clock of splitting a word into digits |
| WbuOutputRtl.Wbucompactlines.Clock | rtl/wbucompactlines.v:67-115 | One clock of dropping newlines |
| WbuOutputRtl.Wbusixchar.Clock | rtl/wbusixchar.v:59-83 | One clock of turning digits to characters |
| WbuOutputProof.OutputElastic | rtl/wbuoutput.v:84-119 | For any busy schedule, characters sent without newlines, and the digits still on their way, are the digits of the words taken, none lost and none repeated |
| WbuOutputProof.LinesStayShort | rtl/wbucompactlines.v:67-115 | Newlines are dropped, yet no line is longer than 78 characters |
| WbuOutputProof.ToSendStep | rtl/wbucompactlines.v:93-115 | The measure behind the drain never grows while no word is taken, and falls on every clock on which the transmitter is free |
| WbuOutputProof.OutputDrains | rtl/wbudeword.v:52-98 | With no word taken, 6 n + 21 clocks on which the transmitter is free, n being the digits left, empty all stages, and the first is ready for another word |
| WbuOutputProof.LinesEnd | rtl/wbucompactlines.v:98-110 | After that, four clocks of rest on the bus and at the transmitter, and the characters sent end with a newline |
| WbuReturn.ReplyRead | sw/ttybus.cpp:503-635 | The host reads the digits of any sound codeword as it was meant, and its table keeps agreeing, from any index |
| WbuReturn.WordsRead | sw/ttybus.cpp:503-635 | From any mix of raw words, references, addresses and notes, reading up to a word returns every word that was meant, in order, takes exactly the codewords so far, knows the address, and leaves the tables in agreement |
| WbuReturn.ErrorThrown | sw/ttybus.cpp:503-635 | When a bus error or a reset comes among the replies before a read has its words, the read stops there with the words before it, the error flag is up, and the interrupt flag exactly if it was or an interrupt was told before the error |
| WbuReturn.ResetHarmlessWhen | sw/ttybus.cpp:418-424 | Restarting the host's read index while the board keeps its table leaves the tables in agreement, whatever they hold, if and only if there are no words or the index was zero |
| WbuReplyPath.HalvesRun | rtl/wbuoutput.v:84-119 | Compressor and output stages joined by their wires: a word leaves the one on the clock on which the other takes it |
| WbuReplyPath.PathLossless | rtl/wbuoutput.v:84-119 | From one moment with nothing on its way to another, the characters sent spell codewords that decode into exactly the messages that went in |
| WbuReplyPath.ShortestAddress | rtl/wbucompress.v:79-104 | The compressor says an address in the fewest digits in which it can be said |
| WbuReplyPath.PathDrains | rtl/wbuoutput.v:84-119 | Compressor and output stages together are empty, with nothing taken in, after a bounded number of clocks on which the transmitter is free |
| WbuReplyPath.WordGetsIn | rtl/wbuoutput.v:84-119 | A word that is offered is taken in by the time the transmitter has been free for 103 clocks |
| WbuReplyPath.EveryMessageSent | rtl/wbuoutput.v:84-119 | After any traffic, and a silence with 103 clocks on which the transmitter is free, the characters sent spell codewords that decode into exactly the messages that went in |
| WbuSession.CallAsked | rtl/wbuexec.v:102-353 | What one call makes the executor reply: its written words, or its address if that is news and its data, and whether there is news after it |
| WbuSession.SessionSays | rtl/wbuexec.v:102-353 | What the executor says in any session, without the notes, answers it call by call |
| WbuSession.SessionTaken | sw/ttybus.cpp:445-635 | Over any careful session, the host takes from replies that answer it exactly the words that each read asked for, and every check of the address passes |
| WbuSession.SessionReturns | sw/ttybus.cpp:210-635 | Whole sessions of reads and writes, there and back: typed however slowly, executed with any stalls, compressed, sent under any busy line among other notes, and read: each read returns exactly the words the bus acknowledged for it, provided that no read without an address comes between a write to a new address and the next read with one |
| WbuSession.SessionUndisturbed | rtl/wbuidleint.v:57-129 | The same through the stage that puts notes in between: they change no answer and not the host's bus-error flag, and its interrupt flag stays as it was unless an interrupt is raised |
| WbuCalls.OneCall | sw/ttybus.cpp:210-635 | One call on the driver leaves it where the reader on digits says, with the words, and with the characters of the call handed over |
| WbuCalls.Session | sw/ttybus.cpp:210-635 | Calls made one after the other on the driver return what the reader on digits returns for the session, and hand the device the characters of the session |
| WbuSession.ResetReads | sw/ttybus.cpp:418-424 | After a restart of the host's index alone, a reference k words back is read right if and only if the table happens to hold the same word in the two places |
| WbuSession.CarefulExactly | sw/ttybus.cpp:418-424 | Starting from tables that agree, a session returns what its replies say, whatever they are, if and only if it is careful |
| WbuSession.CarelessWrong | sw/ttybus.cpp:418-424 | For every session that is not careful, replies that are right and that the host reads wrong |
| WbuSession.CarelessSession | sw/ttybus.cpp:418-424 | There are such sessions, of calls that all arrive: a read, a write of the same word at another address, and a read of what the write left |
| WbuSession.WriteLeavesNoNews | rtl/wbuexec.v:316-322 | A write is answered once for each word, and after it the executor will not announce its address again |
| UartRtl.Txuart.Clock | rtl/txuart.v:184-394 | One clock of the transmitter |
| UartRtl.Rxuart.Clock | rtl/rxuart.v:156-455 | One clock of the receiver |
| UartProof.TxFrame | rtl/txuart.v:184-394 | The transmitter sends start, data, parity and stop bits, each for exactly one bit time, and takes nothing meanwhile |
| UartProof.FrameTakesData | rtl/rxuart.v:323-344 | Each data bit is sampled in its middle, as the bit that was sent |
| UartProof.FrameClock | rtl/rxuart.v:251-455 | The receiver stays a fixed delay behind the frame on the line |
| UartLoop.Clock | rtl/rxuart.v:350-424 | One clock of both: bytes given and bytes between balance bytes accepted, no frame error, no break, and the parity flag exactly when parity is computed and there are two stop bits |
| UartLoop.Loopback | rtl/txuart.v:184-306 | Over every run, the bytes given out and those on their way are the bytes accepted, cut to their width, once each and in order |
| UartLoop.EveryByteArrives | rtl/rxuart.v:395-424 | From two idle ends, any divisor of at least two and any setup: after 12 bit times and 4 clocks of silence every accepted byte has been given out, with no frame error or break |
| UartLoop.OfferTaken | rtl/txuart.v:184-215 | From any moment of a run, a byte offered for 12 bit times and 5 clocks is accepted, if flow control is off or the other end allows it |
| UartLoop.SetupIgnored | rtl/txuart.v:253-264 | A change of the setup lines while both ends are within a frame changes nothing: bytes accepted, bytes given and registers are those of steady lines |
| UartLoop.BytesKeepGoing | rtl/txuart.v:184-215 | And n bytes in n times as long |
| UartLoop.FlowControl | rtl/txuart.v:161-215 | With flow control, once the other end has not been ready for four clocks, nothing is accepted for as long as it stays so |
| UartLoop.StartsIdle | rtl/txuart.v:184-394 | From any registers whatever, four clocks of reset and 16 bit times and 3 clocks of silence leave both ends idle with the setup given |
| UartLoop.BreakSeen | rtl/rxuart.v:169-187 | Whatever both ends are doing, a break asked for during 16 bit times and 5 clocks is seen as one |
| UartLoop.BreakMends | rtl/txuart.v:190-205 | After it, 32 bit times and 7 clocks of silence leave both ends idle |
| UartLoop.FrameErrorShown | rtl/rxuart.v:378-424 | On any line, a byte and the frame error come on one clock if and only if a second stop bit is low where it is sampled |
| ScopeRtl.Wbscopc.Clock | rtl/wbscopc.v:181-379 | One clock of trigger, stop, run counter, word pair and memory |
| ScopeProof.ResetStarts | rtl/wbscopc.v:236-351 | A clock of reset starts the record, from any registers |
| ScopeProof.CounterStep | rtl/wbscopc.v:271-292 | The run counter stays within its limit, and a run at the limit is closed by a forced write |
| ScopeProof.FullRuns | rtl/wbscopc.v:252-286 | A run is never closed for its length before it is MAX_STEP long, unless it has only begun |
| ScopeProof.RecordStep | rtl/wbscopc.v:311-351 | Every clock, with or without an enable, keeps decided and coming words expanding to the samples |
| ScopeProof.CaptureLossless | rtl/wbscopc.v:236-351 | The invariant of the record holds over every run |
| ScopeProof.RecordIsStream | rtl/wbscopc.v:236-351 | From a reset, for any samples and enables: expanding each run length v to v+1 repeats, the words recorded and coming give the data of every enabled clock, saturation included, and after the stop a beginning of it |
| ScopeProof.ReadOutIsLatest | rtl/wbscopc.v:448-457 | Read out from the write address round, the memory is the latest words in order |
| ScopeProof.ReadOutTrue | rtl/wbscopc.v:363-379 | Each word read out tells the truth about the samples at the place the software's count gives |
| ScopeReader.Reader.Print | sw/scopecls.cpp:148-174 | The compressed branch prints a line for each word: a run length, or a sample beside the number of samples before it, marked where the count meets the trigger offset |
| ScopeReader.Reader.GetAddressLen | sw/scopecls.cpp:293-310 | The length in 32 bits, without the first word's run |
| ScopeReader.LengthRightWhen | sw/scopecls.cpp:293-310 | That length is the number of samples if and only if the buffer does not begin with a repeat of more than one |
| ScopeExample.BeginsWithRepeat | rtl/wbscopc.v:181-457 | A run from a reset, with the widths and limits of the design and eight words, triggered and stopped, after which the bus reads out a buffer that begins with a run of four: eleven samples, of which getaddresslen counts eight |
| ScopeReader.TriggerMarked | sw/scopecls.cpp:148-174 | From a reset to the printed page, with a holdoff that leaves the trigger in the memory: the sample that came with the trigger has a line of its own, under its place in the stream, and that line is marked if and only if the length comes out right, and then no other is |
| ScopeReader.PrintedFromReset | sw/scopecls.cpp:148-174 | From a reset, through any run to the final stop, each line printed is true of the data on the enabled clocks |
| ScopeStop.FilledAtStop | rtl/wbscopc.v:181-379 | At the final stop the memory has gone round since the reset, with words of this record only: a trigger counts only once it has |
| ScopeStop.TriggerRecorded | rtl/wbscopc.v:181-266 | With a constant holdoff h, the record ends exactly h + 2 samples from the one that came with the trigger, its own among them, and that one has a data word of its own |
| ScopeStop.TriggeredWhen | rtl/wbscopc.v:172-185 | Without a reset the scope becomes triggered if and only if, on an enabled clock by which the memory has gone round, there is an external trigger that is not disabled, or a manual one |
| ScopeStop.PrimesInTime | rtl/wbscopc.v:252-376 | After a reset the memory has gone round by as many enabled clocks as it has places, and two, however little the data change |
| ScopeStop.ComesToAnEnd | rtl/wbscopc.v:172-228 | From a reset, a trigger after that time is heeded, and with holdoff h the final stop has come h + 6 enabled clocks later |
| ScopeReader.PrintedTrue | sw/scopecls.cpp:160-174 | What is printed beside an address is the sample at that address, and a printed run repeats the sample before it that often and once more |
| PwmRtl.Wbpwmaudio.BitReversal | rtl/wbpwmaudio.v:159-164 | The bit-by-bit loop computes the reversal |
| PwmRtl.Wbpwmaudio.Clock | rtl/wbpwmaudio.v:117-167 | One clock of timer, sample, counter and output |
| Pwm.ReversedBit | rtl/wbpwmaudio.v:159-164 | Bit k of the reversal is the bit as far from the other end, for every width |
| Pwm.WindowCount | rtl/wbpwmaudio.v:154-167 | In an aligned window of 2^k places the reversals below a level are one in every 2^(w-k), evenly spread |
| Pwm.WindowShare | rtl/wbpwmaudio.v:154-167 | While the sample is the same, however often the timer runs out, every aligned window of 2^k clocks is high within less than one of (sample+1)/2^(w-k), for every width and every k |
| Pwm.NothingNew | rtl/wbpwmaudio.v:117-152 | The sample stays the same over any run, across every expiry of the timer, when the next one is the same and no other is written |
| Pwm.FullPeriod | rtl/wbpwmaudio.v:154-167 | Over any 2^w clocks with the same sample, from wherever the counter stands, the output is high for exactly sample+1 of them |
| Pwm.OffsetMeans | rtl/wbpwmaudio.v:139-148 | A signed value v of w bits, in two's complement, is stored as the level v + 2^(w-1) |
| Pwm.SampleHeard | rtl/wbpwmaudio.v:117-167 | After a write of v, and the next expiry of the timer, a full period is high for exactly v + 2^(w-1) + 1 clocks |
| Pwm.TimerPeriod | rtl/wbpwmaudio.v:103-127 | Once n is written as the reload value, expiries are n + 1 clocks apart |
| Pwm.InterruptAfterExpiry | rtl/wbpwmaudio.v:139-152 | With nothing more written, the interrupt stands from the second clock after the expiry on, and not before |
| SdCrcRtl.Sdspi.ClockWrite | rtl/sdspi.v:854-871 | One clock of the checksum of data from the card |
| SdCrcRtl.Sdspi.ClockRead | rtl/sdspi.v:873-892 | One clock of the checksum of data to the card |
| SdCrcRtl.Sdspi.ClockCommand | rtl/sdspi.v:897-920 | One clock of the command checksum |
| Crc.ChecksumIsRemainder | rtl/sdspi.v:854-920 | A register is the checksum of a message if and only if message and register together are a product, over the field of two elements, of the polynomial with a leading one and the taps |
| SdCrc.Crc16Polynomial | rtl/sdspi.v:862-870 | Sixteen bits are the CRC16 of a block if and only if block and bits are a multiple of the polynomial with exponents 16, 12, 5 and 0 |
| SdCrc.Crc7Polynomial | rtl/sdspi.v:897-920 | Seven bits are the CRC7 of a command if and only if command and bits are a multiple of the polynomial with exponents 7, 3 and 0 |
| SdCrc.BlockChecked | rtl/sdspi.v:854-892 | From any registers, cleared and given bytes nine clocks apart or more, the register, shifted a bit a clock, ends with the CRC16 of the bytes |
| SdCrc.CommandChecked | rtl/sdspi.v:897-920 | From any registers, started afresh, given the bytes of a command and seventeen clocks after them, the register ends with the CRC7 of the command |
| SdCrc.EightIsSeven | rtl/sdspi.v:897-920 | The eight-bit register is the seven-bit one and a bit that stays clear |
| SdCrc.CmdCrc | bench/cpp/sdspisim.cpp:468-483 | The byte loop in a 32-bit word computes the same CRC7 and end bit |
| SdCrc.CheckCmdCrc | bench/cpp/sdspisim.cpp:485-489 | Accepts exactly the commands that carry their checksum |
| SdCrc.BlockCrc | bench/cpp/sdspisim.cpp:491-509 | The byte loop computes the same CRC16 |
| SdCrc.AddBlockCrc | bench/cpp/sdspisim.cpp:511-516 | Puts the checksum after the block, and changes no other byte |
| Crc.LinearStream | rtl/sdspi.v:854-920 | Checksums are linear, register and message together |
| Crc.Injective | rtl/sdspi.v:854-920 | A shift loses nothing when the lowest tap is set |
| Crc.ResidueZero | rtl/sdspi.v:854-871 | What follows a message leaves the register zero if and only if it is its checksum |
| Crc.BurstDetected | rtl/sdspi.v:854-871 | Any nonzero error within as many consecutive bits as the register has leaves it nonzero, for every message length |
| SdCrc.ComparisonIsResidue | rtl/sdspi.v:750-757 | The two-byte comparison passes if and only if the whole leaves the register zero |
| SdCrc.BlockErrorNoticed | rtl/sdspi.v:750-757 | A block and checksum changed within sixteen consecutive bits fail the comparison |
| SdCrc.CommandErrorNoticed | bench/cpp/sdspisim.cpp:485-489 | A command and checksum changed within seven consecutive bits fail the check |

## Left out

- USB, sockets, terminals and their buffering: the character channel is a reliable queue.
- `TTYBUS::readidle`, `usleep` and `wait`: they drop characters by design, or wait for the outside.
- WbuInputProof.LineHeard: asks for six idle clocks between characters; characters that come faster overrun the pipeline of the source, and no serial line of the design is that fast.
- The queues between receiver, executor and transmitter (`wbufifo.v`) are sequences that do not overflow.
- WbuSession.SessionReturns: takes sessions without bus errors and resets, as every theorem about sessions does; what the executor does with an error or a reset is in `WbuExecErrors`. The watchdog is not modelled.
- WbuExecProof.ExecutorExact: takes runs in which fewer than 1023 writes are unacknowledged at once, since the source counts acknowledgments in ten bits and has no guard; a burst that runs further ahead of its bus than that is outside the model.
- SdramSim.Sdramsim.Operator: leaves out the refresh times of lines 86 to 89, whose check cannot fail, and auto-precharge, which the controller never commands.
- The size of the host's character buffer `m_buf`.
- The SDRAM output pins are those of the latch at rtl/wbsdram.v:561-567; clock phases, set-up times and the two-clock formal option are not modelled.
- The scope's bus side, its asynchronous transfers between two clocks, and the uncompressed branch of `scopecls.cpp`.
- The PWM's bus acknowledgments and its unused output pins.
- UartLoop.Loopback: takes runs without resets and breaks; what those do, at any moment, is stated by `UartLoop.StartsIdle` and `UartLoop.BreakMends`. Flow control is an input and may change at any time.
- UartLoop.EveryByteArrives: takes the same setup at both ends, read whenever one of them is idle; between frames the source may change it on one end before the other.
- The rest of `sdspi.v`, the flash controller and its driver, the real-time clock, the assembler tables, the screens and debuggers, and the address decoder.
- Metastability, asynchronous clocks and electrical timing.
