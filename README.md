# LED blinking IP core console driver, modelled in Dafny

The driver is a small Linux console program for an FPGA design whose peripheral
blinks a row of LEDs. It runs a menu loop on standard input. Choice 1 asks for a
blinking-frequency index in [0, 15] and choice 2 for a blinking direction in {0, 1};
any other choice but 0 is rejected and the menu is shown again, and 0 ends the
program. An accepted value is written to the peripheral by `setFPGARegister`. That
function opens `/dev/mem` and maps 0xFF bytes of physical memory at `LED_BLINKING`
(0x40010000). It then stores the value as a 32-bit `int` at the register's offset
within the mapping, and unmaps and closes. Numbers are read by `getInput`, which
folds the decimal digits of one input line into an `int`.

The model has five modules.

- `Registers` covers the header: the base address and the `REG_WRITE` / `REG_READ`
  accessors.
  - A mapped window is a sequence of bytes.
  - `RegWrite` stores into an `array` of bytes, in place.
  - Round-trip and frame lemmas hold for the accessors.
- `Os` is an abstract operating system, a class `System`.
  - Each call the driver makes (open, mmap, store, munmap, close, perror) appends an
    event to an effect trace.
  - Whether `open` and `mmap` succeed is fixed when the system is created, so either
    can be made to fail. A successful `open` hands out a fresh descriptor from a
    counter.
  - `Held` and `After` replay a trace into the descriptors and mappings the process
    holds.
- `Driver` is `setFPGARegister` as a method on a `System`, step for step, including
  its early return. Lemmas cover one call's trace: what it stores and what it leaves
  held.
- `Input` is `getInput` as a method over the input characters and a read position,
  proved against the function `Parse`. `Parse`'s closed form is proved: ret is
  `r * 10^k + value of the k digits`, starting from the first character's digit value
  or -1.
- `Console` is `main`'s menu loop, split into `RunConsole`, `MenuPass`, `ChangeSetting`
  and `PromptValue`.
  - It calls `Driver.SetFPGARegister` for every accepted value.
  - It also returns the `(offset, value)` writes it made.
  - It is proved against the function `Menu`, which describes a whole run on the
    input.

Two paths of `setFPGARegister` are modelled exactly as the code takes them.

- On the mapping-failure path the code returns before `close(fd)`, so the descriptor
  stays open. `Driver.FailedCallLeaksDescriptor`, `Console.SessionLeaks` and
  `Console.SessionLeakCount` state the leak.
- The code does not check what `open` returns. A failed open still calls `mmap` with
  descriptor -1, which then fails. `Driver.FailedOpenWritesNothing` states this.

## Model

| member | source | states |
|---|---|---|
| Registers.RegWrite | hdldesignpatterns/matlabhdl/mlhdlc_ip_core_led_blinking_driver.h:6 | the window afterwards is the old window with the four bytes at `off` replaced by the value's encoding; reading the register gives the value back; every other byte is unchanged |
| Registers.Store32 | hdldesignpatterns/matlabhdl/mlhdlc_ip_core_led_blinking_driver.h:6 | the window keeps its length; its four bytes at `off` are the 32-bit encoding of the value; the bytes before and after them are unchanged |
| Registers.RegRead | hdldesignpatterns/matlabhdl/mlhdlc_ip_core_led_blinking_driver.h:7 | the value read is a C `int` whose 32-bit encoding is exactly the four bytes at the offset |
| Registers.Decode32Encode32 | hdldesignpatterns/matlabhdl/mlhdlc_ip_core_led_blinking_driver.h:6-7 | loading the four bytes that a store of any C `int` leaves gives that `int` back |
| Registers.Encode32Decode32 | hdldesignpatterns/matlabhdl/mlhdlc_ip_core_led_blinking_driver.h:6-7 | storing the `int` that four bytes load as reproduces those bytes |
| Registers.ReadAfterWrite | hdldesignpatterns/matlabhdl/mlhdlc_ip_core_led_blinking_driver.h:6-7 | `REG_READ` at an offset after `REG_WRITE` of `v` there returns `v` |
| Registers.WriteChangesOnlyItsBytes | hdldesignpatterns/matlabhdl/mlhdlc_ip_core_led_blinking_driver.h:6 | a register write leaves every byte outside its four bytes unchanged |
| Registers.WriteKeepsOtherRegisters | hdldesignpatterns/matlabhdl/mlhdlc_ip_core_led_blinking_driver.h:6-7 | a write leaves every non-overlapping register reading as before |
| Registers.WriteBackUnchanged | hdldesignpatterns/matlabhdl/mlhdlc_ip_core_led_blinking_driver.h:6-7 | writing back what a register reads changes nothing |
| Registers.LastWriteWins | hdldesignpatterns/matlabhdl/mlhdlc_ip_core_led_blinking_driver.h:6 | two writes to one register leave the window as the second write alone would |
| Os.System.Opened | hdldesignpatterns/matlabhdl/mlhdlc_ip_core_led_blinking_driver.c:77 | `open` offered the descriptor `n` returns -1 or `n`, and `n` exactly when the system's `open` works; `mmap` on the result succeeds exactly when both `open` and `mmap` work |
| Os.System.OpenedAfter | hdldesignpatterns/matlabhdl/mlhdlc_ip_core_led_blinking_driver.c:77 | after `k` opens the next descriptor has moved on by `k` when `open` works and stays put when it fails |
| Os.System.MapResult | hdldesignpatterns/matlabhdl/mlhdlc_ip_core_led_blinking_driver.c:79-81 | `mmap` returns `MAP_FAILED` exactly when the system fails it or the descriptor is invalid |
| Os.System.OpenFile | hdldesignpatterns/matlabhdl/mlhdlc_ip_core_led_blinking_driver.c:77 | returns the next fresh descriptor, or -1 when `open` fails; moves the counter past a descriptor it hands out; appends that open of the path to the trace |
| Os.System.MapMemory | hdldesignpatterns/matlabhdl/mlhdlc_ip_core_led_blinking_driver.c:79 | returns the system's `mmap` result and appends the mapping request with its result |
| Os.System.StoreWord | hdldesignpatterns/matlabhdl/mlhdlc_ip_core_led_blinking_driver.c:87 | the store through the live mapping: the device bytes take the 32-bit store and the trace records address and value |
| Os.System.UnmapMemory | hdldesignpatterns/matlabhdl/mlhdlc_ip_core_led_blinking_driver.c:89 | appends the unmap of the window to the trace |
| Os.System.CloseFile | hdldesignpatterns/matlabhdl/mlhdlc_ip_core_led_blinking_driver.c:90 | appends the close of the descriptor to the trace |
| Os.System.ReportError | hdldesignpatterns/matlabhdl/mlhdlc_ip_core_led_blinking_driver.c:83 | appends the diagnostic to the trace |
| Driver.SetFPGARegister | hdldesignpatterns/matlabhdl/mlhdlc_ip_core_led_blinking_driver.c:72-92 | the trace grows by exactly open (of a fresh descriptor), mmap of `LED_BLINKING` with that descriptor, then either perror (mapping failed) or store, munmap, close; one descriptor is used up when `open` works; the device takes the 32-bit store of `value` at `addr` when mapped and is untouched otherwise |
| Driver.MappedCallWritesOnce | hdldesignpatterns/matlabhdl/mlhdlc_ip_core_led_blinking_driver.c:79-90 | a mapped call issues exactly one store, of the value at base plus offset, after mapping 0xFF bytes at `LED_BLINKING` and before the unmap and close |
| Driver.FailedCallWritesNothing | hdldesignpatterns/matlabhdl/mlhdlc_ip_core_led_blinking_driver.c:81-85 | a call whose mapping fails stores nothing, unmaps nothing, closes nothing and ends with the diagnostic |
| Driver.MappedCallReleases | hdldesignpatterns/matlabhdl/mlhdlc_ip_core_led_blinking_driver.c:77-90 | after a mapped call the process holds exactly what it held before |
| Driver.FailedCallLeaksDescriptor | hdldesignpatterns/matlabhdl/mlhdlc_ip_core_led_blinking_driver.c:77-85 | after a call whose mapping fails, the descriptor `open` returned is still held and nothing is mapped |
| Driver.FailedOpenWritesNothing | hdldesignpatterns/matlabhdl/mlhdlc_ip_core_led_blinking_driver.c:77-85 | a failed `open` still reaches `mmap` with descriptor -1, which fails; nothing is stored and the process holds exactly what it held before |
| Driver.RepeatedCallsIndependent | hdldesignpatterns/matlabhdl/mlhdlc_ip_core_led_blinking_driver.c:72-92 | two mapped calls in a row, on any two descriptors not already held, store twice and leave the process holding exactly what it held before |
| Input.ScanLine | hdldesignpatterns/matlabhdl/mlhdlc_ip_core_led_blinking_driver.c:103-109 | the loop never consumes more characters than remain |
| Input.Parse | hdldesignpatterns/matlabhdl/mlhdlc_ip_core_led_blinking_driver.c:94-111 | never consumes more than the input; on non-empty input at least one character (the first `getchar`) is consumed; on empty input the result is -1 and nothing is consumed |
| Input.GetInput | hdldesignpatterns/matlabhdl/mlhdlc_ip_core_led_blinking_driver.c:94-111 | the loop returns the value and the read position that `Parse` gives for the remaining input |
| Input.AccumulatedCons | hdldesignpatterns/matlabhdl/mlhdlc_ip_core_led_blinking_driver.c:105-108 | one loop step (`ret*10 + ch - '0'` for a digit, nothing otherwise) agrees with the closed form |
| Input.ScanLineToNewline | hdldesignpatterns/matlabhdl/mlhdlc_ip_core_led_blinking_driver.c:103-109 | on a line ended by a newline the loop yields the closed-form value and consumes the line and the newline |
| Input.ScanLineToEnd | hdldesignpatterns/matlabhdl/mlhdlc_ip_core_led_blinking_driver.c:103-109 | on a last line without a newline the loop runs to end of input with the closed-form value |
| Input.ParseLine | hdldesignpatterns/matlabhdl/mlhdlc_ip_core_led_blinking_driver.c:96-110 | `getInput` on a first character and a newline-ended line: value `start * 10^k + digits`, and the line plus its newline consumed |
| Input.ParseLast | hdldesignpatterns/matlabhdl/mlhdlc_ip_core_led_blinking_driver.c:96-110 | the same when input ends before any newline |
| Input.DecimalValueBounds | hdldesignpatterns/matlabhdl/mlhdlc_ip_core_led_blinking_driver.c:101-107 | k digits have a value in [0, 10^k) |
| Input.DigitLine | hdldesignpatterns/matlabhdl/mlhdlc_ip_core_led_blinking_driver.c:94-111 | a line of digits ended by a newline reads as its ordinary decimal value and consumes the newline |
| Input.DigitsToEnd | hdldesignpatterns/matlabhdl/mlhdlc_ip_core_led_blinking_driver.c:94-111 | a line of digits running to end of input reads as its decimal value |
| Input.DigitFirstIsDecimal | hdldesignpatterns/matlabhdl/mlhdlc_ip_core_led_blinking_driver.c:99-108 | with a digit first, the value is the decimal value of all the line's digits, and is non-negative |
| Input.NonDigitFirstIsNegative | hdldesignpatterns/matlabhdl/mlhdlc_ip_core_led_blinking_driver.c:97-108 | with a non-digit first, the value is (value of the k later digits) - 10^k: negative, and -1 when there are none |
| Input.NonDigitFirstParsesNegative | hdldesignpatterns/matlabhdl/mlhdlc_ip_core_led_blinking_driver.c:97-109 | whatever follows, a non-digit first character makes `getInput` return a negative value |
| Input.ScanFromPositive | hdldesignpatterns/matlabhdl/mlhdlc_ip_core_led_blinking_driver.c:103-109 | the loop keeps a positive running value positive, whatever the line holds |
| Input.ZeroNeedsLeadingZero | hdldesignpatterns/matlabhdl/mlhdlc_ip_core_led_blinking_driver.c:96-109 | `getInput` returns 0 only when the first character it reads is '0' |
| Input.LetterThenFive | hdldesignpatterns/matlabhdl/mlhdlc_ip_core_led_blinking_driver.c:97-109 | "x5" followed by a newline reads as -5 |
| Input.LeadingNewlineReadsNextLine | hdldesignpatterns/matlabhdl/mlhdlc_ip_core_led_blinking_driver.c:98-103 | a leading newline is consumed as the first character, so the next line is read too: "\n7\n" reads as -3 |
| Console.Menu | hdldesignpatterns/matlabhdl/mlhdlc_ip_core_led_blinking_driver.c:16-64 | a run issues at most one write for every two input characters, since each write consumes a choice line and a value line |
| Console.Prompt | hdldesignpatterns/matlabhdl/mlhdlc_ip_core_led_blinking_driver.c:32-41 | an accepted value lies in [0, hi] and consumed at least one and at most all remaining characters |
| Console.PromptValue | hdldesignpatterns/matlabhdl/mlhdlc_ip_core_led_blinking_driver.c:32-55 | the value-prompt loop accepts exactly what `Prompt` accepts, at the same position, or reports that the input ran out |
| Console.PromptWithoutDigitsStarves | hdldesignpatterns/matlabhdl/mlhdlc_ip_core_led_blinking_driver.c:32-41 | on input with no digit the prompt never accepts |
| Console.ChangeSetting | hdldesignpatterns/matlabhdl/mlhdlc_ip_core_led_blinking_driver.c:31-57 | the value written is `Prompt`'s accepted value, to the chosen register, and is allowed; `setFPGARegister` runs only then |
| Console.MenuPass | hdldesignpatterns/matlabhdl/mlhdlc_ip_core_led_blinking_driver.c:16-63 | one pass of the do-while body: its writes followed by the rest of the run make up `Menu` on the remaining input; trace and device change as its writes' `setFPGARegister` calls make them |
| Console.RunConsole | hdldesignpatterns/matlabhdl/mlhdlc_ip_core_led_blinking_driver.c:10-70 | the writes and exit flag are `Menu` of the input; every write is allowed; the trace is the writes' `setFPGARegister` traces in order; the device holds the writes applied in order when the mapping succeeds and is untouched otherwise |
| Console.SessionStores | hdldesignpatterns/matlabhdl/mlhdlc_ip_core_led_blinking_driver.c:79-87 | the console's trace holds one store per write when the mapping succeeds and none otherwise |
| Console.SessionReleases | hdldesignpatterns/matlabhdl/mlhdlc_ip_core_led_blinking_driver.c:77-90 | with a working mapping a whole session leaves the process holding exactly what it held before |
| Console.SessionLeaks | hdldesignpatterns/matlabhdl/mlhdlc_ip_core_led_blinking_driver.c:77-85 | with a working `open` and a failing mapping, a session of `k` writes leaves the `k` descriptors it was given open, on top of what was held before |
| Console.SessionLeakCount | hdldesignpatterns/matlabhdl/mlhdlc_ip_core_led_blinking_driver.c:77-85 | such a session leaves exactly `k` more descriptors held |
| Console.MenuWritesStorable | hdldesignpatterns/matlabhdl/mlhdlc_ip_core_led_blinking_driver.c:44-56 | every `setFPGARegister` call the console makes is a register inside the mapped window with an `int` value |
| Console.MenuWritesAllowed | hdldesignpatterns/matlabhdl/mlhdlc_ip_core_led_blinking_driver.c:32-56 | every write is a frequency index in [0, 15] to the frequency register or a direction in {0, 1} to the direction register |
| Console.ZeroChoiceExits | hdldesignpatterns/matlabhdl/mlhdlc_ip_core_led_blinking_driver.c:28-30 | choice 0 ends the run at once, with no write |
| Console.NonNumericChoiceWritesNothing | hdldesignpatterns/matlabhdl/mlhdlc_ip_core_led_blinking_driver.c:58-60 | a choice line starting with a non-digit writes nothing and the loop goes on |
| Console.OtherChoiceWritesNothing | hdldesignpatterns/matlabhdl/mlhdlc_ip_core_led_blinking_driver.c:58-64 | a choice other than 0, 1 or 2 writes nothing and the loop goes on |
| Console.NoZeroNeverExits | hdldesignpatterns/matlabhdl/mlhdlc_ip_core_led_blinking_driver.c:24-64 | on any input without a '0' character the loop never exits |
| Console.SetFrequencyThenExit | hdldesignpatterns/matlabhdl/mlhdlc_ip_core_led_blinking_driver.c:10-70 | input 1, 7, 0 sets the frequency register to 7 and exits |
| Console.OutOfRangeDirectionReprompts | hdldesignpatterns/matlabhdl/mlhdlc_ip_core_led_blinking_driver.c:46-56 | input 2, 5, 1, 0 rejects direction 5, writes 1 to the direction register and exits |

## Left out

- The register offsets of the frequency and direction registers come from an address-map header (`mlhdlc_ip_core_led_blinking_fixpt_pcore_addr.h`). That header is not part of this model, so the offsets are a parameter `Offsets`; `ValidOffsets` asks that both lie in the window and do not overlap.
- `printf` output (the menu, the prompts, "BYE BYE", the error lines and "Possible choices") is not modelled: it does not affect what is read or written.
- The real `open`, `mmap`, `munmap`, `close` and `perror` are replaced by the `Os.System` class. Whether each succeeds is fixed per system, not per call. Page rounding of the mapping and the kernel's view of `/dev/mem` are not modelled.
- Os.System.OpenFile: returns descriptors from a counter that only moves forward, not the lowest free descriptor as POSIX `open` does. A descriptor closed by an earlier call is therefore not reused. Which number is returned has no effect on what the driver stores, only on the descriptor names in the trace.
- The volatile store goes to a byte array, least significant byte first (the ARM target's order). What the peripheral does with the value is outside the model.
- Driver.SetFPGARegister: requires the register to lie inside the 0xFF-byte window and the value to be an `int`. The source checks neither. `Console.MenuWritesStorable` shows the console only makes such calls.
- Registers.RegWrite: requires the offset to lie inside the window. An out-of-window store in C is undefined behaviour, not something to model.
- Console.StoreAll skips a write outside the window. The console never issues one.
- `getInput` accumulates in mathematical integers. The C `int` can overflow on a line with ten or more digits, which the model does not capture.
- `getInput` treats end of input as `EOF`. On a target where `char` is signed, a 0xFF byte in the input would also compare equal to `EOF` and end the line early. On one where `char` is unsigned, `ch != EOF` never fails and `getInput` itself spins at end of input. Neither platform effect is modelled.
- At end of input the C program never terminates. `getInput` keeps returning -1, so `main` (or a value prompt) loops forever. The model ends the run there and reports it as not exited (`exited == false`). Console.RunConsole and Console.ChangeSetting stop at that point instead of looping.
