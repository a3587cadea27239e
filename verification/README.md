# Proofs about a PicoRV32 system-on-chip

This project models the hardest parts of a Verilog and C system-on-chip and
proves what they are for. The parts are the multiplier and divider units of the
PicoRV32 core, its interrupt entry sequence and its two bus bridges, a
prefetching SPI-flash reader, a serial port, three authenticated-encryption
engines (GIFT-COFB, TinyJAMBU, Xoodyak), two word-at-a-time string routines, and
an SD-card bootloader together with the program that packs its images.

## How a clocked module is modelled

Each Verilog module is a class whose fields are its registers, grouped into one
record per clocked block. `Tick` is one rising edge with non-blocking
assignment: every block reads the registers as they were before the edge. The
contract of `Tick` gives the whole new state through a next-state function.
Runs are iterations of a clock edge `tick` that satisfies that function on
every state and every input, and the theorems are about all runs under inputs
that may change in every clock. A loop of the Verilog or the C is a loop here,
proved against a specification function.

Wide words are sequences of bits, bit 0 first. The bytes on the SPI lines go
most significant bit first. Arithmetic units work on naturals with every
truncation written out. Block ciphers and permutations are arbitrary functions
in the proofs about the modes, and the engines are then shown to supply them.

## The files

| file | contents |
|---|---|
| `Arith`, `Bits`, `Clocked`, `Memory` | powers of two, bit sequences, runs of clocked modules, writes to byte memory |
| `RiscvM`, `PcpiMul`, `PcpiFastMul`, `PcpiDiv` | the "M" extension and the units that implement it (sections 7.1 and 7.2 of the RISC-V Unprivileged ISA, version 20191213) |
| `Gift128`, `Gift128Layers`, `CofbMode`, `CofbCore`, `CofbGift` | the block cipher and its engine, its layers bit by bit, the mode as a function, the streaming controller, whole runs of controller and engine |
| `TinyJambuNlfsr`, `TinyJambuMode`, `TinyJambuDatapath`, `TinyJambuCore`, `TinyJambuFrames` | shift register, mode as a function, shared shifter, controller and whole core, where everything lands in the state |
| `Xoodoo`, `XoodooColumns`, `XoodooEngine`, `Xoodyak`, `XoodyakBytes`, `XoodyakRestart` | round function, its steps bit by bit, unrolled engine, sequencing core, its ports byte by byte, what `restart` does to it |
| `SpiLink`, `SpiMemio` | shifter and flash as one byte link, prefetching reader in front of it |
| `Uart` | transmitter and receiver tied together |
| `AxiAdapter`, `WishboneBridge`, `Irq` | bus bridges and interrupts of the core |
| `StringRoutines`, `Bootloader` | C routines and the image packer |

## What the proofs found

Four properties that look natural are false of the code. For each there is an
input that shows it and the exact condition under which the code is right.

- **AXI adapter.** A transfer's request can be issued twice. A handshake in the
  clock right after a transfer ended, not answered in that clock, is forgotten
  (picorv32.v:2801-2805 clears the acknowledge registers last). A request is
  repeated if and only if such a clock occurs (`RepeatsIffForgets`). A read
  followed at once by a write shows it (`TurnAroundRepeats`). A master that only
  chains transfers of the same direction is safe with every slave
  (`SameDirectionExactlyOnce`); the core itself holds `mem_valid` across two
  transfers only for the second word of a fetch, which is a second read
  (picorv32.v:600-603).
- **Serial port dividers.** In every run from reset the transmitter becomes free
  again and again and each accepted byte is received, if and only if the divider
  is 1 to 2^32 - 3 (`WorksIffGoodDivider`). With divider 0 the receiver samples
  one bit late and every byte is shifted. With 2^32 - 2 bytes are accepted but
  nothing is ever received, because the doubled counter wraps at 32 bits
  (simpleuart.v:84). With 2^32 - 1 the transmitter is never free.
- **Xoodyak restart.** `restart` returns the controller to idle but does not
  stop the permutation engine (xoodyakcore.v:125-134, 180-188). A request after
  a restart is accepted over an idle, cleared engine if and only if each start
  pulse the engine took up to the restart is at least as many clocks ago as a
  run takes, the accepting clock included (`CleanIffRunEnded`); then it is served
  as any other. A restart in the first clock of a permutation and a request right
  behind it show the failure: the engine permutes the key words while they are
  loaded, and at the default of one round per clock the next start pulse is lost
  and `done` rises early. The system in this repository ties `restart` low
  (scripts/vivado/system.v:225); the finding is about the core's own port.
- **Image size.** The packer warns only above 63 KB (wrap_firmware.py:44-45) but
  the loader refuses more than 60 KB (bootloader.c:325-328). An empty firmware is
  packed without complaint and refused. Loading succeeds if and only if the size
  is 1 to 61440 bytes.

## Model

| member | source | states |
|---|---|---|
| Bits.ValueOfNumber | picosoc/tinyjambu/tinyjambu_fsm.v:58-59 | Read back lowest bit first, the word written for a number, a frame, a length or a round constant, is that number modulo 2^n |
| Memory.PutAt | dhrystone/stdlib.c:135-151 | Each element of a run written to memory is found at its place |
| RiscvM.MulDivWords | picorv32.v:2227 | For every choice of fields of an instruction word, it is taken by the units if and only if its opcode is 0x33 and its top seven bits are 1 |
| PcpiMul.AddGroupsExact | picorv32.v:2262-2267 | For any number of carry groups, the new sum, the new carries and the carry lost at the top add up to exactly the three operands, provided carries sit on group boundaries |
| PcpiMul.AddGroupsBounded | picorv32.v:2263-2266 | The addition keeps both words within their width and the carries on group boundaries, so no group sum ever overflows its five bits |
| PcpiMul.CarriesDrain | picorv32.v:2262-2267 | Once the low groups of the carries and of the addend are zero, one more group of carries is zero after each addition |
| PcpiMul.AddInPlace | picorv32.v:2262-2267 | The loop over 4-bit slices that overwrites the accumulator and the carry word computes the carry-save addition |
| PcpiMul.StepAccumulates | picorv32.v:2255-2270 | Each step keeps rd + rdx + rs1·rs2 equal to the product of the original operands modulo 2^64, carries aligned, and finished low groups free of carries |
| PcpiMul.FullProduct | picorv32.v:2255-2270 | After 64 or more steps the carry word is zero and `rd` alone is the product modulo 2^64 |
| PcpiMul.LowProduct | picorv32.v:2255-2270 | After 32 or more steps the low 32 bits hold no carries and are the product modulo 2^32 |
| PcpiMul.ExtendedProduct | picorv32.v:2279-2287 | Extending each operand by its own signedness to 64 bits gives the signed, mixed or unsigned product modulo 2^64 |
| PcpiMul.ProductSelected | picorv32.v:2313 | The half of `rd` that is selected is the MUL, MULH, MULHSU or MULHU result of section 7.1 of the RISC-V Unprivileged ISA |
| PcpiMul.Accumulating | picorv32.v:2293-2304 | During a run the counter's sign bit rises exactly when enough additions are done, for every number of steps per clock from 1 to 64 |
| PcpiMul.Multiply | picorv32.v:2218-2315 | From an idle unit, for all operands and every steps-per-clock setting, `ready` first rises exactly 4 + ceil(width/steps) clocks after the request, with the ISA's result |
| PcpiMul.CeilingClocks | picorv32.v:2293-2304 | The number of accumulating clocks in that statement is the width, 32 or 64, over the steps per clock, rounded up |
| PcpiMul.IdleAgain | picorv32.v:2218-2315 | The core requests through the clock of the answer and withdraws at its end; two clocks later, with any operands, the unit is idle, the earliest at which the core can request again |
| PcpiMul.StaysIdle | picorv32.v:2221-2315 | An idle unit stays idle in every clock that asks for no multiplication, whatever other instruction is offered |
| PcpiMul.ResetLeavesIdle | picorv32.v:2275-2276 | Two clocks of reset leave the unit idle from any state |
| PcpiMul.Multiplier.Tick | picorv32.v:2221-2315 | One edge of the class moves all three clocked blocks to the specified next state, reading only old values |
| PcpiMul.Multiplier.ClockLoop | picorv32.v:2273-2305 | The accumulation block loads, steps or stops as specified and stays within 64-bit registers |
| PcpiMul.Multiplier.Accumulate | picorv32.v:2249-2271 | The combinational loop performs as many carry-save steps as the parameter says |
| PcpiFastMul.FastMultiply | picorv32.v:2363-2411 | From an empty pipeline the ISA's result is ready after exactly two clocks, for all four multiplications and all operands |
| PcpiFastMul.EmptyAgain | picorv32.v:2378-2403 | After the answer, the clock in which the core still requests and two without a request, the pipeline is empty and nothing was answered twice |
| PcpiFastMul.StaysEmpty | picorv32.v:2345-2403 | An empty pipeline stays empty in every clock that asks for no multiplication |
| PcpiFastMul.ResetEmpties | picorv32.v:2397-2398 | One clock of reset empties the pipeline |
| PcpiFastMul.MultipliersAgree | scripts/smtbmc/mulcmp.v:57-86 | The serial multiplier, at any steps-per-clock setting, and the fast one answer every request with the same word |
| PcpiFastMul.FastMultiplier.Tick | picorv32.v:2364-2399 | One edge moves the pipeline registers to the specified next state |
| PcpiDiv.DivisorShift | picorv32.v:2475 | The negation in a 63-bit context, shifted left by 31, is the magnitude of rs2 times 2^31 for every rs2 |
| PcpiDiv.RestoringStep | picorv32.v:2498-2506 | Each clock keeps dividend = quotient·divisor + rest with the quotient confined to the bits done and a halving bound on the rest when the divisor is nonzero |
| PcpiDiv.MagnitudesDivide | picorv32.v:2457-2509 | After 32 clocks quotient and remainder satisfy the division equation; with divisor zero the quotient is all ones and the remainder the dividend |
| PcpiDiv.SignedDivision | picorv32.v:2474-2476 | Dividing magnitudes and putting the signs back is division toward zero |
| PcpiDiv.DivisionUnique | picorv32.v:2492-2495 | Quotient and remainder toward zero are unique, so the requirement determines them |
| PcpiDiv.ResultUnique | picorv32.v:2492-2495 | The ISA's division requirement admits one result word only |
| PcpiDiv.SignFixup | picorv32.v:2476 | With `outsign` as computed, the negated or plain magnitude is the ISA's result, including divisor zero and -2^31 / -1 |
| PcpiDiv.Divide | picorv32.v:2457-2509 | For all operands, from an idle unit, `ready` is first up 36 clocks after the request, with the DIV, DIVU, REM or REMU result of section 7.2 of the RISC-V Unprivileged ISA |
| PcpiDiv.IdleAgain | picorv32.v:2435-2455 | The core requests through the clock of the answer and withdraws at its end; one clock later the unit is idle and stays so |
| PcpiDiv.StaysIdle | picorv32.v:2444 | An idle unit stays idle in every clock that asks for no division, whatever other instruction is offered |
| PcpiDiv.ResetLeavesIdle | picorv32.v:2469-2470 | One clock of reset leaves the unit idle from any state |
| PcpiDiv.Divider.Tick | picorv32.v:2438-2509 | One edge moves both clocked blocks to the specified next state |
| Gift128.SubCellsInverse | picosoc/GIFT_COFB/gift128_subcells.v:22-54 | The bit-sliced S-box is undone by an explicit inverse |
| Gift128.InvSubCellsInverse | picosoc/GIFT_COFB/gift128_subcells.v:22-54 | The S-box undoes that inverse, so it is onto |
| Gift128.PermWordInverse | picosoc/GIFT_COFB/gift128_permbits.v:15-44 | In each row k, sending bit 4i+g to bit 8·((k-g) mod 4)+i is undone by an explicit inverse |
| Gift128.PermBitsInverse | picosoc/GIFT_COFB/gift128_permbits.v:15-44 | The permutation of all four rows is a bijection with that inverse |
| Gift128Layers.SubCellsColumn | picosoc/GIFT_COFB/gift128_subcells.v:22-54 | On each of the 32 bit columns the bit-sliced circuit is the 16-value S-box table of GIFT |
| Gift128Layers.PermBitsBit | picosoc/GIFT_COFB/gift128_permbits.v:15-44 | For every word k, bit 4i+g of the input is bit 8·((k-g) mod 4)+i of the output |
| Gift128Layers.AddedBits | picosoc/GIFT_COFB/gift128_addroundkey.v:14-15 | W7 and W6 go to the low and high half of word 1, W3 and W2 to those of word 2, constant and top bit to word 3, word 0 is left alone |
| Gift128Layers.ConstantBits | picosoc/GIFT_COFB/gift128_encrypt_top.v:32-54 | The 40 listed round constants are the states of a 6-bit shift register with feedback not(c5 xor c4), the first of them 1, with no higher bits |
| Gift128Layers.RoundBit | picosoc/GIFT_COFB/gift128_round.v:15-25 | Every bit of a round in one formula: a bit of the S-box table at one column, moved to its target, with its key or constant bit |
| Gift128Layers.ScheduleStep | picosoc/GIFT_COFB/gift128_keyschedule.v:8-15 | One step moves the halves down by two places and brings halves 6 and 7 round, rotated right by 2 and by 12 |
| Gift128Layers.KeysInRound | picosoc/GIFT_COFB/gift128_keyschedule.v:8-15 | After any number n of rounds, each bit of each key half is one stated bit of the original key: from half (c + 6n) mod 8, at the place turned by 2, or by 12, for each time it has come round |
| Gift128Layers.KeysAfterFours | picosoc/GIFT_COFB/gift128_keyschedule.v:8-15 | After 4m rounds each half is back in its place, bit i being bit i + 2m of it for the even halves and bit i + 12m for the odd ones, modulo 16 |
| Gift128Layers.PortWord | picosoc/GIFT_COFB/gift128_encrypt_top.v:86-89 | Text word k is taken from bits 96-32k on of the plaintext port |
| Gift128Layers.PortHalf | picosoc/GIFT_COFB/gift128_encrypt_top.v:92-99 | Key half c is taken from bits 112-16c on of the key port |
| Gift128Layers.ResultBits | picosoc/GIFT_COFB/gift128_encrypt_top.v:112 | Word k of the last round goes to bits 96-32k on of the ciphertext port |
| Gift128.AddKeyTwice | picosoc/GIFT_COFB/gift128_addroundkey.v:14-15 | Adding round key and round constant is its own inverse |
| Gift128.RoundInverse | picosoc/GIFT_COFB/gift128_round.v:15-25 | Every round, under every key and constant, is a bijection with an explicit inverse |
| Gift128.CipherInverse | picosoc/GIFT_COFB/gift128_encrypt_top.v:76-118 | For every key the 40-round cipher is a bijection on blocks, with an explicit decryption on both sides |
| Gift128.EngineStep | picosoc/GIFT_COFB/gift128_encrypt_top.v:81-117 | In every clock, whatever the inputs, the engine behaves as a job that delivers the cipher of what it accepted and ignores starts while busy |
| Gift128.EncryptsIn41 | picosoc/GIFT_COFB/gift128_encrypt_top.v:76-118 | An accepted start gives a single `done` pulse, 41 clocks later, with the 40-fold round iterate of the accepted block and key |
| Gift128.EncryptTop.Tick | picosoc/GIFT_COFB/gift128_encrypt_top.v:76-118 | One edge of the engine class is the specified next state |
| CofbMode.DoubleInjective | picosoc/GIFT_COFB/double_half_block.v:9-12 | Doubling in GF(2^64) is injective |
| CofbMode.TripleInjective | picosoc/GIFT_COFB/triple_half_block.v:6-10 | Tripling in GF(2^64) is injective |
| CofbMode.DoubleTripleCommute | picosoc/GIFT_COFB/triple_half_block.v:6-10 | Doubling and tripling commute, so the mask depends only on how often each was applied |
| CofbMode.UnmaskMasked | picosoc/GIFT_COFB/xor_block.v:8-48 | Truncated addition of the same block twice leaves the valid bytes of the message |
| CofbMode.PaddingOfTruncated | picosoc/GIFT_COFB/padding.v:9-67 | Padding looks only at the valid bytes |
| CofbMode.CofbReversible | picosoc/GIFT_COFB/phoprime.v:8-19 | The circuit's block maps meet what decryption needs, for any block cipher |
| CofbMode.CofbCommuting | picosoc/GIFT_COFB/cofb_core.v:99-109 | The circuit's mask maps meet what the power form needs |
| CofbMode.DecryptionInverts | picosoc/GIFT_COFB/cofb_core.v:261-323 | For any number of blocks, any partial last block and any block cipher, decrypting the output gives every message block, truncated to its valid bytes, and the same tag |
| CofbMode.AdMaskDoubled | picosoc/GIFT_COFB/cofb_core.v:214-215 | Before the last block of associated data the mask is 2^k times the nonce half block |
| CofbMode.AdMaskFinal | picosoc/GIFT_COFB/cofb_core.v:216-221 | At the last block of associated data, for every length, the mask is 2^(n-1)·3^t times the nonce half block, with t = 1, 2, 3 or 4 for a full block or a partial or empty one, with a message or without |
| CofbMode.MsgMaskPower | picosoc/GIFT_COFB/cofb_core.v:264-265 | Before message block k the mask has the power form, the doublings of both parts added |
| CofbMode.MsgMaskFinal | picosoc/GIFT_COFB/cofb_core.v:266-269 | At the last message block the mask has one further tripling if the message length is a multiple of 16, two otherwise |
| CofbMode.MasksDiffer | picosoc/GIFT_COFB/cofb_core.v:216-221 | From a mask that is not zero, the four masks that a last block can get, by full or partial and with or without a message, are all different |
| CofbMode.MaskMaps | picosoc/GIFT_COFB/double_half_block.v:9-12 | The masks of the mode are doubled by a shift up with the reduction at bits 0, 1, 3 and 4, and tripled by adding the double |
| CofbMode.ChainStarts | picosoc/GIFT_COFB/cofb_core.v:188-204 | The cipher is first called on the nonce, and the first mask is the top half of the result |
| CofbMode.AdCall | picosoc/GIFT_COFB/cofb_core.v:111-138 | Bit by bit what the cipher is called on for each block of associated data: its valid bytes with a one behind them, the swapped and rotated chaining value, and the new mask on the top half |
| CofbMode.MsgCall | picosoc/GIFT_COFB/cofb_core.v:118-138 | The same for each message block, with the plaintext in both directions: the block that comes in when encrypting, the one that goes out when decrypting |
| CofbMode.OutputBits | picosoc/GIFT_COFB/xor_block.v:8-48 | Each bit put out is the sum of message and chaining value within the message length and zero beyond |
| CofbMode.PaddingBit | picosoc/GIFT_COFB/padding.v:9-67 | Padding keeps the valid bytes, puts a one behind them and zeros after it |
| CofbCore.NeverStartsBusyCipher | picosoc/GIFT_COFB/cofb_core.v:174 | In every reachable state the start pulse is down while the cipher is busy |
| CofbCore.StepWaitAd | picosoc/GIFT_COFB/cofb_core.v:231-247 | Waiting for the cipher in the associated-data part keeps the invariant that ties registers, requests and mode |
| CofbCore.StepProcMsg | picosoc/GIFT_COFB/cofb_core.v:261-283 | Processing a message block keeps that invariant |
| CofbCore.Safety | picosoc/GIFT_COFB/cofb_core.v:154-329 | The invariant holds in every clock of every run of a query, whenever the user acknowledges |
| CofbCore.RecordIsShown | picosoc/GIFT_COFB/cofb_core.v:175 | In every run the blocks at the data port in the clocks with `data_out_valid` up are exactly the recorded output blocks |
| CofbCore.Outcome | picosoc/GIFT_COFB/cofb_core.v:261-323 | A run that finishes has raised `data_out_valid` exactly ceil(m/16) times, each time with the block of the mode, has acknowledged max(1, ceil(a/16)) - 1 requests for associated data, holds the mode's tag, and one clock later shows no further block and sets `valid` exactly when encrypting or when the tags agree |
| CofbCore.Terminates | picosoc/GIFT_COFB/cofb_core.v:154-329 | Every query finishes if each request for a block that is up at the port is acknowledged in that clock; acknowledgements at other times are arbitrary |
| CofbCore.MaskAtAdCall | picosoc/GIFT_COFB/cofb_core.v:211-226 | In every reachable cipher call for associated data the mask register has the power form, with 1 to 4 triplings at the last block by the lengths of the query |
| CofbCore.MaskAtMsgCall | picosoc/GIFT_COFB/cofb_core.v:261-283 | In every reachable cipher call for a message block the mask register has the power form, with one or two further triplings at the last block by the message length |
| CofbCore.RoundTrip | picosoc/GIFT_COFB/cofb_core.v:271-323 | A decrypting run fed with the blocks and tag of an encrypting run under the same key, nonce and associated data puts out the message, truncated to its valid bytes, and ends with `valid` up |
| CofbCore.ConcreteFollows | picosoc/GIFT_COFB/cofb_core.v:134-149 | One clock of the core with the real engine behind its wires follows one clock of the core with a cipher job |
| CofbGift.RunFollows | picosoc/GIFT_COFB/cofb_core.v:134-149 | Every run of core and engine follows a run of the core around the 40-round cipher, in registers, acknowledgements and blocks shown |
| CofbGift.GiftOutcome | picosoc/GIFT_COFB/cofb_core.v:140-329 | With the GIFT-128 engine, a finished query has shown exactly the ceil(m/16) blocks of the mode over that cipher and ends with its tag and verdict |
| CofbGift.GiftRoundTrip | picosoc/GIFT_COFB/cofb_core.v:271-323 | With the GIFT-128 engine, decrypting the blocks shown and the tag shows the message, truncated to its valid bytes, and raises `valid` |
| CofbCore.CofbTop.Tick | picosoc/GIFT_COFB/cofb_core.v:154-329 | One edge of core and engine together is the specified next state |
| CofbCore.CofbTop.ClockCore | picosoc/GIFT_COFB/cofb_core.v:179-327 | The case statement computes the specified registers in every state |
| TinyJambuNlfsr.FeedbackBit | picosoc/tinyjambu/tinyjambu_nlfsr.v:33-39 | Bit i of the word feedback combines the taps i, 47+i, 70+i, 85+i and 91+i of the 128-bit state with key bit i |
| TinyJambuNlfsr.RoundBits | picosoc/tinyjambu/tinyjambu_nlfsr.v:33-39 | The serial round moves every bit down by one and feeds back bit 0, bit 47, the NAND of bits 70 and 85, bit 91 and the key bit |
| TinyJambuNlfsr.WordStepIsRounds | picosoc/tinyjambu/tinyjambu_nlfsr.v:33-56 | One word step equals 32 serial bit rounds, for every state and key word |
| TinyJambuNlfsr.Nlfsr.Tick | picosoc/tinyjambu/tinyjambu_nlfsr.v:41-56 | A running clock performs 32 serial rounds; any other clears the register or adds the two deltas |
| TinyJambuMode.WordStepsArePermutation | picosoc/tinyjambu/tinyjambu_fsm.v:110-114 | N word steps with the key words in turn are 32·N serial rounds with key bit i mod 128 in round i |
| TinyJambuMode.DecryptEncrypt | picosoc/tinyjambu/tinyjambu_fsm.v:265-289 | Decrypting what was encrypted from the same state gives the message and the same end state, for messages of any length |
| TinyJambuMode.OpenSeal | picosoc/tinyjambu/tinyjambu_fsm.v:265-301 | Opening what was sealed gives the message and the same tag, for any permutation, nonce, associated data and message |
| TinyJambuFrames.CoreFrames | picosoc/tinyjambu/tinyjambu_fsm.v:219-294 | The frame clocks of the core invert exactly bits 36 (nonce), 36 and 37 (associated data), 36 and 38 (message), and 36, 37 and 38 (first final step) of the 128-bit state |
| TinyJambuFrames.ModeFrames | picosoc/tinyjambu/tinyjambu_fsm.v:219-263 | So do the mode's frames, before 640, 640 and 1024 rounds |
| TinyJambuFrames.ModeFinish | picosoc/tinyjambu/tinyjambu_fsm.v:291-301 | The tag is bits 64 to 95 after the final frame at bits 36, 37, 38 and 1024 rounds, then again after that frame and 640 rounds |
| TinyJambuFrames.LengthBits | picosoc/tinyjambu/tinyjambu_fsm.v:245-257 | An incomplete word of one, two or three bytes inverts exactly bit 32, bit 33 or both; a complete one inverts neither |
| TinyJambuFrames.ModeAbsorbs | picosoc/tinyjambu/tinyjambu_fsm.v:234-258 | A word of associated data is added to bits 96 on after its frame and 640 rounds, and its length to bits 32 and 33 |
| TinyJambuFrames.ModeEncrypts | picosoc/tinyjambu/tinyjambu_fsm.v:260-289 | Encrypting adds bits 64 to 95 of the state to up to 32 bits of the message, adds those message bits to bits 96 on, and goes on with the rest |
| TinyJambuFrames.ModeDecrypts | picosoc/tinyjambu/tinyjambu_fsm.v:260-289 | Decrypting does the same, with the bits that go out added to bits 96 on |
| TinyJambuFrames.ModeStarts | picosoc/tinyjambu/tinyjambu_fsm.v:100-134 | The start is 1024 rounds of the zero state and three times the nonce frame, 640 rounds and a nonce word |
| TinyJambuFrames.KeyedRounds | picosoc/tinyjambu/tinyjambu_datapath.v:182 | The key bits of the serial rounds are those of the key port from the top byte down, each byte from its lowest bit up, over and over |
| TinyJambuFrames.StreamBit | picosoc/tinyjambu/tinyjambu_datapath.v:156-201 | The first byte of a stream is the top one of the valid bytes at the port |
| TinyJambuFrames.DeliveredBits | picosoc/tinyjambu/tinyjambu_datapath.v:207-215 | At the outputs the text starts with the top one of its bytes, zeros above them, the tag with its top byte, and the tag is compared in mode 2 only |
| TinyJambuDatapath.SwapTwice | picosoc/tinyjambu/tinyjambu_datapath.v:72-91 | Reversing the bytes of a word of any width twice is the identity |
| TinyJambuDatapath.AlignIsStream | picosoc/tinyjambu/tinyjambu_datapath.v:153-170 | Byte swap and shift deliver the stream of valid bytes from bit 0 up, zeros above |
| TinyJambuDatapath.StreamOfAligned | picosoc/tinyjambu/tinyjambu_datapath.v:208-209 | The value delivered for a stream fits its length and has that stream |
| TinyJambuDatapath.AlignTwice | picosoc/tinyjambu/tinyjambu_datapath.v:153-170 | At a fixed length byte swap and shift are an involution on values that fit the length |
| TinyJambuDatapath.WordOfStream | picosoc/tinyjambu/tinyjambu_datapath.v:94-103 | Word k of an aligned register is chunk k of the stream, padded with zeros |
| TinyJambuDatapath.MaskPadded | picosoc/tinyjambu/tinyjambu_datapath.v:116-124 | Masking a padded last chunk does nothing, so the mask on associated data is redundant |
| TinyJambuDatapath.SetStreamWord | picosoc/tinyjambu/tinyjambu_datapath.v:204-205 | Storing the next output word appends its chunk to the output stream |
| TinyJambuCore.PermPhase | picosoc/tinyjambu/tinyjambu_fsm.v:110-114 | A permutation phase started with N steps takes N clocks, applies the permutation of N words and returns where it was told |
| TinyJambuCore.AdWires | picosoc/tinyjambu/tinyjambu_fsm.v:239-258 | The deltas driven in the associated-data phase add the chunk, the partial length and, when nothing follows, the final frame |
| TinyJambuCore.MsgWires | picosoc/tinyjambu/tinyjambu_fsm.v:265-289 | The deltas driven in the data phase add the plaintext chunk in both directions, with its partial length and the final frame |
| TinyJambuCore.MsgOutput | picosoc/tinyjambu/tinyjambu_fsm.v:265-281 | Each data clock appends exactly the masked chunk to the output stream |
| TinyJambuCore.Setup | picosoc/tinyjambu/tinyjambu_fsm.v:94-134 | Accepting a request and adding the nonce takes 101 clocks and gives the mode's state |
| TinyJambuCore.AdLoop | picosoc/tinyjambu/tinyjambu_fsm.v:136-151 | The associated-data loop absorbs the rest of the stream, 22 clocks a word |
| TinyJambuCore.MsgLoop | picosoc/tinyjambu/tinyjambu_fsm.v:153-164 | The data loop crypts the rest of the stream, 34 clocks a word |
| TinyJambuCore.Aead | picosoc/tinyjambu/tinyjambu_fsm.v:84-182 | For every request, whatever `i_ena` does later, `o_done` first rises at clock 156 + 22·ad_words + 34·data_words with the mode's text, tag and verdict at the outputs |
| TinyJambuCore.RoundTrip | picosoc/tinyjambu/tinyjambu_datapath.v:203-215 | Feeding data and tag of an encryption to a decryption delivers, in every run of both, the low `data_length` bytes of the original, zeros above, and `o_valid` |
| TinyJambuCore.Core.Tick | picosoc/tinyjambu/tinyjambu_core.v:21-39 | One edge of controller, shift register and datapath is the specified next state |
| TinyJambuCore.Core.ClockFsm | picosoc/tinyjambu/tinyjambu_fsm.v:93-180 | The controller's case statement computes the specified registers in every state |
| TinyJambuCore.Core.ClockDatapath | picosoc/tinyjambu/tinyjambu_datapath.v:180-216 | The five guarded updates of the datapath compute the specified registers |
| Xoodoo.ParityLoop | picosoc/Xoodyak_old/xoodoo_round.v:36-39 | The loop fills the column parity |
| Xoodoo.EffectLoop | picosoc/Xoodyak_old/xoodoo_round.v:50-54 | The loop fills the theta effect |
| Xoodoo.AddLoop | picosoc/Xoodyak_old/xoodoo_round.v:57-61 | The nested loop adds the effect to every plane |
| Xoodoo.RhoWestLoop | picosoc/Xoodyak_old/xoodoo_round.v:64-70 | The loop computes rho west |
| Xoodoo.ChiLoop | picosoc/Xoodyak_old/xoodoo_round.v:84-93 | The loop computes chi |
| Xoodoo.RhoEastLoop | picosoc/Xoodyak_old/xoodoo_round.v:96-102 | The loop computes rho east |
| Xoodoo.RoundBlocks | picosoc/Xoodyak_old/xoodoo_round.v:28-113 | The chained blocks compute the round |
| XoodooColumns.ThetaBit | picosoc/Xoodyak_old/xoodoo_round.v:36-61 | Every bit gets the parities of the columns 5 and 14 places down in the column word before |
| XoodooColumns.RhoWestBit | picosoc/Xoodyak_old/xoodoo_round.v:64-70 | Plane 1 moves by one column word, plane 2 by 11 places, plane 0 stays |
| XoodooColumns.IotaBit | picosoc/Xoodyak_old/xoodoo_round.v:73-80 | Exactly the bits of the constant are inverted, in state word 0 |
| XoodooColumns.ChiColumn | picosoc/Xoodyak_old/xoodoo_round.v:83-93 | On each column of three bits chi is the table 0, 3, 6, 1, 5, 4, 2, 7 |
| XoodooColumns.RhoEastBit | picosoc/Xoodyak_old/xoodoo_round.v:96-102 | Plane 1 moves by one place, plane 2 by two column words and 8 places, plane 0 stays |
| XoodooColumns.RoundBit | picosoc/Xoodyak_old/xoodoo_round.v:28-113 | Every bit of the state after a round: the bit of the chi table at one column of the state after theta, moved, with the constant |
| Xoodoo.ParityMapOrder | picosoc/Xoodyak_old/xoodoo_round.v:50-54 | The theta parity map 1+m satisfies (1+m)^32 = 1 on every plane |
| Xoodoo.ParityInverses | picosoc/Xoodyak_old/xoodoo_round.v:50-54 | The five composed factors 1+m^(2^i) undo the parity map on both sides |
| Xoodoo.ThetaInverse | picosoc/Xoodyak_old/xoodoo_round.v:36-61 | Theta is undone by an explicit inverse |
| Xoodoo.InvThetaInverse | picosoc/Xoodyak_old/xoodoo_round.v:36-61 | Theta undoes that inverse, so it is onto |
| Xoodoo.ChiInvolution | picosoc/Xoodyak_old/xoodoo_round.v:83-93 | Chi is an involution |
| Xoodoo.RhoInverses | picosoc/Xoodyak_old/xoodoo_round.v:64-102 | Rho west and rho east are bijections with explicit inverses |
| Xoodoo.IotaInvolution | picosoc/Xoodyak_old/xoodoo_round.v:73-80 | Adding a round constant is its own inverse |
| Xoodoo.RoundInverse | picosoc/Xoodyak_old/xoodoo_round.v:28-113 | For every round constant the round is a bijection on 384-bit states, with an explicit inverse on both sides |
| XoodooEngine.LastRcAfterTwelve | picosoc/Xoodyak_old/xoodoo_rc.v:21-30 | From its first state the constant generator reaches 010011 after twelve steps and not earlier |
| XoodooEngine.ConstantAt | picosoc/Xoodyak_old/xoodoo_rc.v:32-47 | The twelve constants generated on the way are those of Xoodoo |
| XoodooEngine.UnrolledIsRounds | picosoc/Xoodyak_old/xoodoo_n_rounds.v:25-50 | A chain of n round instances is n rounds of the permutation |
| XoodooEngine.PermutationInverse | picosoc/Xoodyak_old/xoodoo_n_rounds.v:25-50 | The twelve-round permutation is a bijection |
| XoodooEngine.IdleClock | picosoc/Xoodyak_old/xoodoo.v:80-88 | An idle engine adds its inputs and stays idle; only with all twelve rounds in one cycle does an idle clock raise `valid` |
| XoodooEngine.TwelveRounds | picosoc/Xoodyak_old/xoodoo.v:75-128 | For every divisor of twelve as rounds per cycle, a start pulse leaves exactly twelve rounds of the start state when `valid` rises, and it rises no earlier |
| XoodooEngine.XoodooTop.Tick | picosoc/Xoodyak_old/xoodoo.v:75-128 | One edge of both clocked blocks is the specified next state |
| Xoodyak.ReplaceIsAbsorb | picosoc/Xoodyak_old/xoodyakcore.v:470-479 | Replacing state words by ciphertext equals absorbing the plaintext words |
| Xoodyak.CryptTwice | picosoc/Xoodyak_old/xoodyakcore.v:540-552 | Decrypting an output word from the same state gives the input word |
| Xoodyak.InputsIgnored | picosoc/Xoodyak_old/xoodyakcore.v:190-319 | While the core is busy and not restarted, no input has any effect |
| Xoodyak.Waits | picosoc/Xoodyak_old/xoodyakcore.v:219-229 | The core waits in a permutation phase exactly until the engine delivers, and never advances on a stale valid flag |
| Xoodyak.KeySegment | picosoc/Xoodyak_old/xoodyakcore.v:206-229 | Key and nonce are absorbed and permuted in n + 10 clocks |
| Xoodyak.AdSegment | picosoc/Xoodyak_old/xoodyakcore.v:231-251 | Associated data of 0 to 16 bytes is absorbed, padded and permuted |
| Xoodyak.DataSegment | picosoc/Xoodyak_old/xoodyakcore.v:253-272 | Data of 0 to 16 bytes is crypted, padded and permuted, leaving the words of the mode in the output register |
| Xoodyak.TagSegment | picosoc/Xoodyak_old/xoodyakcore.v:274-282 | The tag words squeezed are put out, and compared exactly when decrypting |
| Xoodyak.ReadyAccepts | picosoc/Xoodyak_old/xoodyakcore.v:194-203 | A waiting core with an idle engine accepts a request and clears the state |
| Xoodyak.Aead | picosoc/Xoodyak_old/xoodyakcore.v:180-665 | For any permutation served by the engine, any request accepted over an idle, cleared engine and any inputs after the first clock, `done` first rises 3n + 20 clocks plus one per word later, with the mode's data, tag and verdict |
| XoodyakBytes.KeyedBit | picosoc/Xoodyak_old/xoodyakcore.v:424-447 | The first state permuted, byte by byte: key and nonce with the top byte of each port first, 0x10 and 0x01 behind them, 0x02 in the last byte, zeros elsewhere |
| XoodyakBytes.AdInputBit | picosoc/Xoodyak_old/xoodyakcore.v:449-468 | The second: the bytes of the associated data added from byte 0 on, a one behind the last valid byte, and 0x83 in the last byte |
| XoodyakBytes.DataInputBit | picosoc/Xoodyak_old/xoodyakcore.v:470-490 | The third: data bytes added when encrypting or put in place when decrypting, a one behind the last valid byte, and 0x40 in the last byte |
| XoodyakBytes.OutcomeBits | picosoc/Xoodyak_old/xoodyakcore.v:540-632 | Byte j of data_out is byte j of the state plus byte j of the data, byte j of the tag is byte j of the last state, and the tag is compared in mode 2 |
| XoodyakBytes.WordsHold | picosoc/Xoodyak_old/xoodyakcore.v:232-239 | Bytes are handled in words of four, as many as have been begun |
| XoodyakBytes.Modes | picosoc/Xoodyak_old/xoodyakcore.v:48-50 | Mode 3 hashes; mode 1 puts out the tag and every other one compares it too |
| Xoodyak.RoundTrip | picosoc/Xoodyak_old/xoodyakcore.v:470-634 | A decryption fed with the unmasked output words and the tag of an encryption reproduces every processed input word and sets `valid` |
| Xoodyak.Hash | picosoc/Xoodyak_old/xoodyakcore.v:284-311 | In hash mode the two halves of the digest are squeezed from the padded and permuted data, and `done` rises at the stated clock |
| XoodyakBytes.HashInputBit | picosoc/Xoodyak_old/xoodyakcore.v:492-511 | The state hashed, byte by byte: the data, a one behind its last byte, 0x01 in the last byte, zeros elsewhere |
| XoodyakBytes.DigestBits | picosoc/Xoodyak_old/xoodyakcore.v:553-592 | The bytes of the digest are those of the state, for the second half after a further permutation before which the lowest bit of byte 0 is inverted |
| Xoodyak.EngineMeets | picosoc/Xoodyak_old/xoodyakcore.v:136-148 | The unrolled engine, at every divisor of twelve, supplies what these runs ask of a permutation engine |
| Xoodyak.XoodyakCore.Tick | picosoc/Xoodyak_old/xoodyakcore.v:180-665 | One edge of core and engine is the specified next state |
| XoodyakRestart.EngineTracks | picosoc/Xoodyak_old/xoodoo.v:97-128 | Under any wires, also clearing and writing during a run, the engine's control registers follow the clocks since the start pulse it took; pulses during a run are lost |
| XoodyakRestart.RunTracks | picosoc/Xoodyak_old/xoodyakcore.v:125-148 | In every run of the core under any inputs, restarts included, the engine's control registers follow that count |
| XoodyakRestart.AgeFromPulses | picosoc/Xoodyak_old/xoodoo.v:105-122 | A run is under way if and only if some pulse the engine took is fewer clocks ago than a run takes |
| XoodyakRestart.AcceptsIffEnded | picosoc/Xoodyak_old/xoodyakcore.v:428-431 | A request is accepted over an idle, cleared engine if and only if no run goes on after the accepting clock |
| XoodyakRestart.CleanIffRunEnded | picosoc/Xoodyak_old/xoodyakcore.v:180-188 | In every run, for a restart in any clock and the first request after it, that holds if and only if each start pulse the engine took up to the restart is at least a run's length ago |
| XoodyakRestart.RestartedAead | picosoc/Xoodyak_old/xoodyakcore.v:180-665 | Such a request, for encryption or decryption, is served with the mode's outputs at the usual clock and not before |
| XoodyakRestart.RestartedHash | picosoc/Xoodyak_old/xoodyakcore.v:284-311 | Such a request for a digest is served with the usual digest at the usual clock and not before |
| XoodyakRestart.KeyWordIsPermuted | picosoc/Xoodyak_old/xoodyakcore.v:180-188 | A restart in the first clock of the nonce's permutation and a request in the next clock: with at most four rounds per clock the request is accepted over a running engine, which permutes the first key word as soon as it is loaded |
| XoodyakRestart.DoneComesEarly | picosoc/Xoodyak_old/xoodyakcore.v:180-188 | With one round per clock and the same inputs, the second request's start pulse is lost and `done` rises eleven clocks early |
| SpiLink.LinkStep | picosoc/spimemio.v:436-578 | Clock by clock, shifter and flash together carry a byte link: each byte accepted reaches the flash, the byte the flash had ready comes back, and the handshakes are those of the link |
| SpiLink.CommandValues | picosoc/spiflash.v:118-128 | The commands reader and flash share are 0x03 to read, 0xAB and 0xB9 to wake up and power down, and 0xFF to leave a continuous mode |
| SpiLink.FlashPower | picosoc/spiflash.v:115-128 | Only the first byte after selection wakes the flash up or powers it down; powered down, or under another command than to read, it returns each byte as it was sent |
| SpiLink.FlashReads | picosoc/spiflash.v:128-142 | A powered flash given the read command and an address, top byte first, brings out byte k of memory from there after k more bytes of any kind, around the end of its 16 MB |
| SpiLink.SampledByte | picosoc/spiflash.v:367-381 | The flash acts on the byte whose top bit it sampled first, after eight edges |
| SpiLink.DrivenBit | picosoc/spiflash.v:298-304 | The flash drives the top bit of its buffer and moves the next one there at each edge |
| SpiLink.Shifter.Tick | picosoc/spimemio.v:535-578 | One edge of the shifter is the specified next state |
| SpiLink.SpiFlash.Pins | picosoc/spiflash.v:265-381 | A change of the pins moves the flash as its event blocks do |
| SpiMemio.LastAddressSent | picosoc/spimemio.v:303-312 | With the third address byte the flash starts to stream the memory from the requested address |
| SpiMemio.ReadStep | picosoc/spimemio.v:324-358 | Each clock of the reading states keeps the invariant that ties `rd_addr`, `rd_inc`, the collected bytes and the flash's own pointer |
| SpiMemio.JumpStep | picosoc/spimemio.v:361-373 | A jump that aborts a prefetch at any point re-establishes the invariant |
| SpiMemio.AnyStep | picosoc/spimemio.v:207-375 | Every clock, with any request and any reset, keeps the invariant |
| SpiMemio.ReadsMemory | picosoc/spimemio.v:71-72 | In every run, whenever `ready` is up `rdata` is the little-endian word of the flash at `addr`, across prefetches, stalls, jumps and resets |
| SpiMemio.WordAtBit | picosoc/spimemio.v:225 | The word at an address has byte k of memory from there in bits 8k to 8k+7, around the end of the 16 MB |
| SpiMemio.AnswersRequests | picosoc/spimemio.v:207-375 | Every request held while out of reset is answered, correctly, within 523 clocks |
| SpiMemio.Reader.Tick | picosoc/spimemio.v:174-375 | One edge of reader and shifter, joined by their handshakes, is the specified next state |
| SpiMemio.Reader.Advance | picosoc/spimemio.v:207-375 | The reader's clocked block, reset, state machine and collection together, computes the specified registers |
| SpiMemio.Reader.Send | picosoc/spimemio.v:235-359 | The state machine offers and advances as specified |
| SpiMemio.Reader.Collect | picosoc/spimemio.v:221-233 | Bytes are put where their tags say and complete the word as specified |
| Uart.InStepNext | picosoc/simpleuart.v:77-103 | Each sample falls inside its bit cell, and the receiver is idle again before the next start bit can come |
| Uart.DecodesWhatIsSent | picosoc/simpleuart.v:66-136 | For every divider from 1 to 2^32 - 3 and every run, what was received is what was sent, up to the one byte on the line |
| Uart.BufferHoldsLast | picosoc/simpleuart.v:75-95 | For any divider, a valid receive buffer holds the byte received last |
| Uart.ByteTakesTenBits | picosoc/simpleuart.v:125-134 | A byte accepted has been received 10·(div + 2) clocks later, when the next one can be accepted |
| Uart.OnTheLine | picosoc/simpleuart.v:109-136 | For every divider up to 2^32 - 2, an accepted byte is on the line in ten cells of div + 2 clocks each: a zero, its bits from the lowest up, and a one, whatever is written meanwhile |
| Uart.WorksIffGoodDivider | picosoc/simpleuart.v:66-136 | For every 32-bit divider: in all runs from reset the transmitter becomes free again and again and each accepted byte is received, if and only if the divider is 1 to 2^32 - 3 |
| Uart.WarmUp | picosoc/simpleuart.v:119-123 | After reset the idle frame of fifteen bits passes with nothing accepted or received, for every divider but the largest |
| Uart.ZeroDividerLosesByte | picosoc/simpleuart.v:84-102 | With divider 0 a zero byte is accepted 31 clocks after reset and never received |
| Uart.HugeDividerLosesByte | picosoc/simpleuart.v:84 | With divider 2^32 - 2 a byte is accepted when the idle frame has ended and never received |
| Uart.MaxDividerNeverFree | picosoc/simpleuart.v:119-134 | With divider 2^32 - 1 the transmitter is never free after reset |
| Uart.ZeroDividerShiftsBytes | picosoc/simpleuart.v:84-102 | With divider 0 every byte arrives shifted by one bit, and equals what was sent only if it is all ones |
| Uart.HugeDividerReceivesNothing | picosoc/simpleuart.v:84 | With a divider of 2^32 - 2 or more nothing is ever received |
| Uart.MaxDividerSendsNothing | picosoc/simpleuart.v:119-134 | With the largest divider the initial idle frame never ends and nothing is sent |
| Uart.SerialPort.Send | picosoc/simpleuart.v:109-136 | The transmitter's registers after an edge are as specified |
| Uart.SerialPort.Receive | picosoc/simpleuart.v:66-105 | The receiver's registers after an edge are as specified |
| Uart.SerialPort.Tick | picosoc/simpleuart.v:66-136 | One edge of both directions is the specified next state |
| AxiAdapter.WritesIffStrobe | picorv32.v:2773-2788 | A transfer uses the write channels if and only if one of its byte strobes is up |
| AxiAdapter.InvStep | picorv32.v:2790-2807 | Where no handshake is forgotten, the acknowledge registers keep counting the handshakes of the transfer under way, and no channel asks again |
| AxiAdapter.OncePerTransfer | picorv32.v:2773-2788 | In a state that satisfies the invariant, a transfer that ends has made one AW and one W handshake, or one AR, and no other |
| AxiAdapter.RepeatsIffForgets | scripts/smtbmc/axicheck.v:105-115 | In every run, some request is repeated if and only if an earlier clock forgot a handshake: one right after a transfer ended and not answered at once |
| AxiAdapter.ExactlyOnce | picorv32.v:2773-2807 | In every run without such a clock, each transfer makes exactly its requests, in either order, also back to back |
| AxiAdapter.HeldUntilAccepted | scripts/smtbmc/axicheck.v:153-194 | In every run in which no handshake was forgotten, a request on any channel stays up with the same payload until it is accepted (section A3.2.1 of AMBA AXI, IHI 0022E) |
| AxiAdapter.SameDirectionExactlyOnce | picorv32.v:2773-2807 | A master that chains only transfers of one direction gets exactly one request each, with every slave |
| AxiAdapter.TurnAroundRepeats | picorv32.v:2801-2805 | A read followed at once by a write, with a slave that obeys the protocol, issues the write address twice |
| AxiAdapter.Adapter.Tick | picorv32.v:2790-2807 | One edge out of reset is the specified next state |
| WishboneBridge.RunKeepsInv | picorv32.v:2998-3048 | In every run from reset, with further resets at any clocks, strobe and cycle are up exactly in WBSTART, `mem_ready` exactly in WBEND but for the clock after a reset, and the bus shows the transfer under way |
| WishboneBridge.RunsByPorts | picorv32.v:565-570 | The runs meant are those in which a request that is not answered is held unless a reset comes, and none is made in the clock after a reset |
| WishboneBridge.OneCyclePerTransfer | picorv32.v:2998-3048 | From any state, with resets at any clocks, each transfer that ends has made exactly one bus cycle, with its own address, data and strobes, and gets the data of that cycle (section 3.1.3 of Wishbone B4) |
| WishboneBridge.CycleFields | picorv32.v:2990-3025 | The cycle of a transfer has its address, data and strobes, and `we` is up if and only if a strobe is |
| WishboneBridge.CycleEndsTransfer | picorv32.v:3027-3043 | Each acknowledged bus cycle belongs to the transfer under way, is its only one and ends it in the next clock |
| WishboneBridge.Bridge.Tick | picorv32.v:2998-3048 | One edge is the specified next state |
| Irq.PendingKept | picorv32.v:1963 | A latched, unmasked-by-parameter interrupt stays pending in each clock unless that clock reports it in both `eoi` and the second IRQ register |
| Irq.PendingIff | picorv32.v:1440-1963 | For every state, input and bit, what is pending after a clock: raised by its line, the timer (0), a break (1) or a misaligned access (2), or kept because latched and not handed over; never if masked by parameter |
| Irq.LineRaises | picorv32.v:1915-1916 | A line that is up makes its interrupt pending in every state, unless masked by parameter |
| Irq.PendingFromCause | picorv32.v:1915-1963 | What becomes pending was raised in that clock |
| Irq.RaisedUntilReported | picorv32.v:1915-1963 | In every untrapped run, a latched and unmasked line raised in clock m is pending at every later clock or has been reported in between |
| Irq.EntersIff | picorv32.v:1538 | An entry starts if and only if an instruction is due, no handler is active, no delay is due and some pending interrupt is not masked |
| Irq.TrapsIff | picorv32.v:1922-1944 | The core stops if and only if told to, or on a misaligned access or a break whose interrupt is masked or meets an active handler |
| Irq.MaskSet | picorv32.v:1678-1684 | `maskirq` gives back the old mask and sets the new one, never below the parameter; nothing else changes it |
| Irq.WaitEnds | picorv32.v:1549-1557 | `waitirq` completes with the pending causes as its result if there are any, and waits otherwise |
| Irq.SavedKept | picorv32.v:1304-1330 | Return address and causes change only at an entry or when an instruction writes to their registers |
| Irq.NeverNested | picorv32.v:1538-1546 | An entry starts only while no handler is active and no delay is due, and `irq_active` is set only by its second clock |
| Irq.EntrySequence | picorv32.v:1506-1546 | An entry takes three fetch clocks: the return address reaches the first IRQ register, the handler's address the program counter, and every cause pending at the start both `eoi` and the second IRQ register |
| Irq.ReturnResumes | picorv32.v:1667-1677 | `retirq` ends the handler, clears `eoi` and resumes at the saved address with its low bit cleared |
| Irq.PendingUntilReported | picorv32.v:1440 | In every untrapped run, an interrupt once pending stays pending until the entry step that reports it |
| Irq.OneInstructionBetween | picorv32.v:1400 | Between the `retirq` that ends a handler and the next entry at least one instruction is issued |
| Irq.EntersInactive | picorv32.v:1538 | In every untrapped run the handler is never entered while one is active |
| Irq.Interrupts.Collect | picorv32.v:1915-1963 | The pending register, updated one cause at a time, is the specified one |
| Irq.Interrupts.Tick | picorv32.v:1402-1963 | One edge of the interrupt slice is the specified next state |
| StringRoutines.ZeroByteTest | dhrystone/stdlib.c:133 | (v - 0x01010101) & ~v & 0x80808080 is nonzero exactly when some byte of v is zero |
| StringRoutines.StoreTail | dhrystone/stdlib.c:135-151 | The last word is stored byte by byte up to its first zero and no further |
| StringRoutines.Strcpy | dhrystone/stdlib.c:118-158 | For every string and every alignment of both pointers, memory afterwards is memory before with exactly the string and its terminator at the destination |
| StringRoutines.CompareWords | dhrystone/stdlib.c:180-199 | The unrolled byte comparison of two words settles as the byte-wise comparison does |
| StringRoutines.Strcmp | dhrystone/stdlib.c:160-208 | For every two strings and all alignments the result is that of the byte-wise comparison, and memory is unchanged |
| StringRoutines.CompareMeans | dhrystone/stdlib.c:164-170 | The byte-wise comparison is zero exactly for equal strings, otherwise has the sign of the first difference, and is antisymmetric |
| Bootloader.HeaderRoundTrip | firmware/wrap_firmware.py:51 | The four header bytes, lowest first, are the size |
| Bootloader.Wrap | firmware/wrap_firmware.py:41-55 | The image is the header and the firmware, followed by fewer than four zero bytes up to a multiple of four |
| Bootloader.HoldsFirmware | firmware/bootloader.c:318-320 | On a card that holds a packed image the loader finds the size and the bytes that were packed |
| Bootloader.Memcpy | firmware/bootloader.c:44-50 | Memory afterwards is memory before with exactly the n bytes copied |
| Bootloader.RightSector | firmware/bootloader.c:265 | Block-addressed and byte-addressed cards are both asked for the sector meant, as long as the byte address fits 32 bits |
| Bootloader.ReadSector | firmware/bootloader.c:264-296 | On success the buffer holds the sector; on failure memory is unchanged |
| Bootloader.LoadChunk | firmware/bootloader.c:335-343 | One buffered sector extends the loaded firmware by its part and writes nothing else |
| Bootloader.LoadRest | firmware/bootloader.c:334-343 | The loop loads the rest of the firmware, or stops with -3 at the first sector that cannot be read |
| Bootloader.LoadFw | firmware/bootloader.c:306-349 | The status tells exactly which of the four outcomes applies; on success the firmware is in place after ceil((4+size)/512) sector reads; nothing outside the application area and the sector buffer changes |
| Bootloader.WrapAndLoad | firmware/bootloader.c:306-349 | A packed firmware is restored byte for byte if and only if its size is 1 to 61440 bytes |

## Left out

- The instruction set of the core: decoder, ALU, compressed fetch, trace, counters and formal-interface blocks are not modelled.
- The multiplier's parameter `CARRY_CHAIN` is 4, its default; the fast multiplier has its default parameters; the alternative operations for formal runs (`RISCV_FORMAL_ALTOPS`) are left out.
- Asynchronous resets and undefined values: runs start from the state a reset leaves, and registers that no reset initialises are arbitrary.
- Real wire timing: flash output delays, double-data-rate registers and pin enables.
- PcpiMul.Multiply: operands and instruction are held until the answer, as the coprocessor interface asks of the core; steps per clock are 1 to 64.
- CofbCore.Outcome: key, mode, message length and input tag are held during a query because the circuit reads them late; lengths are the 8 bits of their ports.
- TinyJambuCore.Aead: the inputs other than `i_ena` are held during a request because the circuit reads associated data and data after it starts; lengths are at most 16 bytes, the width of the data ports.
- Xoodyak.Aead: the request is not interrupted by a restart; when one before it does no harm is `XoodyakRestart.CleanIffRunEnded`; lengths are at most 16 bytes, the width of the data ports.
- Xoodyak.RoundTrip: the circuit does not mask the last partial word, so decryption is fed the whole output words, as the firmware feeds them.
- SpiMemio.ReadsMemory: default single-bit read mode only; dual, quad, double-rate and continuous reads, the configuration register and bit-banging are left out; the CPU holds a request until it is answered.
- SpiLink.LinkStep: the flash's 32-bit byte counter is unbounded in the model, so a single streamed read is never long enough to wrap it.
- SpiLink.SpiFlash.Pins: only the wake-up, power-down and 03h commands of the flash.
- SpiLink.Shifter.Tick: the single-bit path of the shifter only; dual, quad, double-rate and dummy clocks are left out.
- SpiMemio.Reader.Tick: the default configuration only, without the configuration register.
- SpiMemio.Reader.Advance: the default configuration only.
- SpiMemio.Reader.Send: the default configuration only, without state 8 and the other read commands.
- Uart.DecodesWhatIsSent: the divider does not change during a run.
- AxiAdapter.ExactlyOnce: the reset of the adapter clears one of its four registers only, so a first clock without a transfer is asked for instead of reset; read data and protection bits are wires and are not modelled beyond the payload.
- WishboneBridge.OneCyclePerTransfer: that the core makes no request in the clock after reset is taken from the core (picorv32.v:565-570), which is not modelled here.
- Irq.EntrySequence: decoder, memory interface, ALU and the later pipeline stages are inputs of the slice, and the three clocks are not trapped; the timer is an input that says when it expires; the configuration without IRQ registers of its own, which saves into general registers, differs only in where they live.
- Irq.Interrupts.Tick: decoder, memory interface, ALU and the later stages are inputs of the slice.
- Irq.PendingUntilReported: interrupts masked by parameter or not latched by parameter are not covered, as the parameters intend.
- StringRoutines.Strcpy: pointers are indices into one memory whose base and length are multiples of four; source and destination do not overlap, as C demands.
- Bootloader.ReadSector: the command exchange with the card is a status and 512 bytes per sector; serial output, LEDs and delays are left out.
- Bootloader.Wrap: running `objcopy` and file names are left out; the firmware is shorter than 2^32 bytes, as the header field demands.
- The simple SPI master, the shifter loop, the printing routines, the sieve and the benchmark bodies: easier members of kinds covered here.
- The known-answer drivers of the firmware, test benches and board files: nothing in them to prove for all inputs.
- Cryptographic strength: not a correctness property of this code.
