# mboxctl control client and common helpers, modelled in Dafny

This project models two parts of the mboxbridge repository.

**The `mboxctl` control client** (module `MboxCtl`, `mboxctl.dfy`).
Each selected command-line option becomes one request to the flash-bridge daemon on the system message bus. A request is a command byte plus an argument byte array. The reply is a status byte plus an argument byte array. The client:

- accepts a reply only if it has at least the expected number of argument bytes;
- copies exactly that many bytes into the response;
- returns the negated status byte;
- prints the status text that `parse_error` gives for the byte.

The bus is an oracle (`Daemon`). Given every request attempted on the connection so far, it answers one of:

- `CallFailed(errno)`: building the message, appending to it, the call or reading the status byte failed;
- `ArgsUnreadable(status, errno)`: the status byte was read but the argument array could not be;
- `Reply(status, args)`.

`Context` stands for `struct mboxctl_context`: it holds the bus connection and the method calls attempted on it, including those whose message could not be built or sent (they get a `CallFailed` reply). `DbusMsg` is `struct mbox_dbus_msg`, which `send_dbus_msg` fills in place. Every handler method that sends a request (all but `HandleResume`) is proved equal to the pure specification `Outcome`; `HandleResume` is proved to return `-E_DBUS_INVAL` without using the bus. `ParseCmdline` is proved equal to `Dispatch`, and the dispatch properties are lemmas about `Dispatch`.

**The helpers of `common.c`** (module `Common`, `common.dfy`, and `Base.Memcpy`).
`put_u16`/`put_u32` write a scalar into a byte buffer in the host's byte order, and `get_u16`/`get_u32` read it back. The byte order is a parameter (`ByteOrder`). `get_dev_mtd` scans the kernel's MTD partition listing for the first line that mentions "pnor" in any case. It cuts that line at its first `:` and returns `/dev/` followed by the part before the colon. The listing is a sequence of `Line(text, complete)`: the characters that `fgets` stored before the line feed, NUL characters included, and whether its line feed was read. The C code only sees a line's text up to its first NUL: its test for the line feed uses `strlen`, so a line holding a NUL fails that test and stops the scan just as an incomplete line does (`EndsAtLineFeed`). `None` stands for a listing that could not be opened. `GetDevMtd` runs the C loop and is proved equal to the pure `MtdDevice`/`ScanLines`.

**Constants.** The daemon header `mbox_dbus.h` is not part of this model. Its byte constants (`DBUS_C_*`, `DBUS_SUCCESS`, `E_DBUS_*`, `STATUS_ACTIVE`, `RESUME_*`) are the fields of the parameter `Codes`. `Codes.Valid()` states what the model assumes about them:

- The five status codes are distinct, which the `switch` in `parse_error` needs to compile.
- `DBUS_SUCCESS` is the byte 0. This is an assumption. It makes `-E_DBUS_INTERNAL` negative, and it is what lets `ZeroIffSuccessText` relate a zero result to the "Success" text.

**The resume handler.** Its guard is `!arg || *arg != '0' || *arg != '1'`. This holds for every argument (`ResumeGuardAlwaysHolds`), so `handle_cmd_resume` always returns `-E_DBUS_INVAL` without using the bus. The model follows the code here. The request the code would build after the guard ('1' gives `RESUME_FLASH_MODIFIED`, anything else gives `RESUME_NOT_MODIFIED`) is written out in `RequestOf` and `ResumeFlag`.

**Where the code differs from what a reimplementation of the client would be expected to do, the model follows the code:**

- A reimplementation would be expected to report an unrecognized option with an invalid-request result. In the code `usage()` calls `exit(0)`, so the process ends with status 0 and the `-E_DBUS_INVAL` after it is never returned. `Dispatch` stops with 0 at `h` or an unrecognized option.
- A reimplementation would be expected to turn a transport failure into an internal-error result. In the code the failing sd-bus step's own negative return value comes back unchanged. Only a reply with too few arguments gives `-E_DBUS_INTERNAL`.
- A reimplementation would be expected to let resume accept "0" and "1". In the code resume rejects every argument (see above).

## Model

| member | source | states |
|---|---|---|
| `MboxCtl.ParseError` | mboxctl.c:71-87 | Each of the five known status codes maps to its own fixed text, in both directions; every other value maps to "Failed - Unknown Error" |
| `MboxCtl.SendRc` | mboxctl.c:113-167 | The result is 0 exactly when the reply was read in full with at least the expected argument count; a failing bus step gives its own negative code; a short reply gives -E_DBUS_INTERNAL |
| `MboxCtl.Context.Call` | mboxctl.c:113-158 | One bus call appends the request to the connection's trace; the answer is the daemon's reply to that trace |
| `MboxCtl.Context.SendDbusMsg` | mboxctl.c:102-175 | Sends the command byte and the num_args argument bytes. The result is `SendRc` of the reply. `resp->cmd` is written once the status byte has been read. `resp->args` becomes the first num_args reply bytes when the reply is accepted and is left unchanged otherwise; extra reply bytes are ignored |
| `MboxCtl.Context.constructor` | mboxctl.c:89-100 | A connected bus context on which nothing has been attempted yet |
| `MboxCtl.DbusMsg.constructor` | mboxctl.c:179 | The `{ 0 }` initialiser: command byte 0, no arguments, and an argument array that agrees with the argument count |
| `MboxCtl.ReplyArity` | mboxctl.c:199-204 | Only the status command expects a reply argument, exactly one |
| `MboxCtl.RequestOf` | mboxctl.c:182-300 | Every handler but resume builds a request, resume builds none; no request carries an argument byte |
| `MboxCtl.RequestEncoding` | mboxctl.c:177-314 | Ping, status, reset, suspend and flash-modified each send their own command byte with no arguments; resume sends nothing |
| `MboxCtl.Outcome` | mboxctl.c:184-219 | A transport error comes back unchanged with nothing printed. A short reply gives -E_DBUS_INTERNAL. An accepted reply gives -status, which lies in [-255, 0] and is 0 iff the status byte is 0, and prints "Label: text". Status prints "Active" iff the status is success and args[0] == STATUS_ACTIVE, "Suspended" iff the status is success and args[0] differs, and nothing otherwise |
| `MboxCtl.ZeroIffSuccessText` | mboxctl.c:190-191 | For the commands that print a status text, the handler returns 0 exactly when it prints "Success" |
| `MboxCtl.Context.SimpleCommand` | mboxctl.c:179-191 | The body shared by the ping, reset, suspend and flash-modified handlers: sends its command with no arguments; its result and printed line are `Outcome` of the reply |
| `MboxCtl.Context.HandlePing` | mboxctl.c:177-195 | Sends DBUS_C_PING with no arguments; its result and printed line are `Outcome` of the daemon's reply |
| `MboxCtl.Context.HandleStatus` | mboxctl.c:197-224 | Sends DBUS_C_STATUS with no arguments and expects one reply argument; its result and printed line are `Outcome` of the reply |
| `MboxCtl.Context.HandleReset` | mboxctl.c:226-244 | Sends DBUS_C_RESET with no arguments; its result is `Outcome` of the reply |
| `MboxCtl.Context.HandleSuspend` | mboxctl.c:246-264 | Sends DBUS_C_SUSPEND with no arguments; its result is `Outcome` of the reply |
| `MboxCtl.Context.HandleModified` | mboxctl.c:295-314 | Sends DBUS_C_MODIFIED with no arguments; its result is `Outcome` of the reply |
| `MboxCtl.HandleResume` | mboxctl.c:266-293 | Returns -E_DBUS_INVAL and prints nothing for every argument; it has no access to the bus |
| `MboxCtl.ResumeGuardAlwaysHolds` | mboxctl.c:271-274 | The guard `!arg \|\| *arg != '0' \|\| *arg != '1'` is true for every argument |
| `MboxCtl.ResumeFlag` | mboxctl.c:279-280 | The unreachable encoding: '1' gives RESUME_FLASH_MODIFIED, any other character gives RESUME_NOT_MODIFIED |
| `MboxCtl.Context.ParseCmdline` | mboxctl.c:316-372 | The loop over the decoded options: its result and the requests it sends are those of `Dispatch` starting from rc = -1 |
| `MboxCtl.Step` | mboxctl.c:333-359 | One option that does not exit: `v` and `e` leave the requests attempted unchanged, every other option appends exactly one request to them |
| `MboxCtl.Dispatch` | mboxctl.c:333-371 | The loop over the options: if any option is `h` or unrecognized, the result is 0 |
| `MboxCtl.NoOptionsNoCommand` | mboxctl.c:318 | With no options the result is -1 and nothing is sent |
| `MboxCtl.ResetAliasesPointToFlash` | mboxctl.c:343-346 | `r` and `f` have the same effect: one DBUS_C_RESET request, with the result taken from its reply |
| `MboxCtl.VersionYieldsZero` | mboxctl.c:356-359 | `v` sets the result to 0 and sends nothing |
| `MboxCtl.ResumeFailsLocally` | mboxctl.c:350-352 | `e` sets the result to -E_DBUS_INVAL for every argument and sends nothing |
| `MboxCtl.LastOptionWins` | mboxctl.c:333-371 | Among options that do not exit, the last one processed decides the result |
| `MboxCtl.ExitOptionStops` | mboxctl.c:360-367 | The first `h` or unrecognized option ends the run with status 0; later options are never processed |
| `MboxCtl.OneRequestPerOption` | mboxctl.c:333-369 | A run only appends to the connection's trace, at most one request per option |
| `MboxCtl.RunMain` | mboxctl.c:374-389 | A failed bus connection (negative code) is returned as is, with no dispatch; otherwise the result is that of `Dispatch` on a fresh connection |
| `Base.Memcpy` | mboxctl.c:166 | Writes exactly the source bytes at the given offset; every other byte of the buffer is unchanged |
| `Common.PutU16` | common.c:56-59 | Writes v's two host-order bytes at p[0..2) and changes no other byte; `get_u16` at the same place then reads v |
| `Common.PutU32` | common.c:66-69 | Writes v's four host-order bytes at p[0..4) and changes no other byte; `get_u32` at the same place then reads v |
| `Common.GetU16` | common.c:51-54 | The value read is the one whose two host-order bytes are the two bytes at the read position |
| `Common.GetU32` | common.c:61-64 | The value read is the one whose four host-order bytes are the four bytes at the read position |
| `Common.HostRoundTrip` | common.c:51-69 | On a host of either byte order, reading back the bytes written for a value that fits gives the value |
| `Common.HostBytesOfValue` | common.c:51-69 | On a host of either byte order, writing back the value read from some bytes gives the same bytes |
| `Common.HostOrderMatters` | common.c:56-59 | The stored bytes of a 16-bit value depend on the host: low byte first on a little-endian host, high byte first on a big-endian one, so the two differ for every value whose two bytes differ |
| `Common.IsPnorPart` | common.c:72-75 | True iff "pnor" occurs in the line, with letters compared case-insensitively as `tolower` does |
| `Common.FirstIndexOf` | common.c:93 | Like `strchr`: no index iff the character is absent; otherwise the index of its first occurrence |
| `Common.FirstStop` | common.c:87-97 | The index of the first line that fails the line-feed test or mentions "pnor"; every earlier line passes the test and does not mention it |
| `Common.ScanLines` | common.c:87-104 | A device found is "/dev/" plus the text before the first ':' of some line that passes the line-feed test and mentions "pnor" |
| `Common.MtdDevice` | common.c:77-107 | A listing that cannot be opened gives no device; a device found is a path starting with "/dev/" |
| `Common.ScanLinesAtFirstStop` | common.c:87-104 | The scan's result depends only on the line at `FirstStop`: none if there is no such line, if it fails the line-feed test, or if it has no ':'; otherwise "/dev/" plus its text before the first ':' |
| `Common.FirstMatchDecides` | common.c:92-104 | The first line that passes the line-feed test and mentions "pnor" gives "/dev/" plus its text before its first ':'; if it has no ':', the result is no device |
| `Common.TruncatedLineAborts` | common.c:88-90 | A line read before any match that fails the line-feed test (incomplete, or holding a NUL) ends the scan with no device |
| `Common.NoMatchNoDevice` | common.c:87-106 | A listing whose lines all pass the line-feed test and none mentions "pnor" gives no device |
| `Common.LaterLinesIgnored` | common.c:87-97 | Lines after the one where the scan stops do not change the result |
| `Common.DeviceFoundIff` | common.c:87-104 | A device d is found iff the stopping line passes the line-feed test, mentions "pnor" and has a ':', and d is "/dev/" plus its text before the first ':' |
| `Common.PnorLineNamesDevice` | common.c:87-104 | A NUL-free line "name:..." whose part after the colon mentions "pnor", preceded only by lines the scan reads past, gives "/dev/name". Example: `mtd4: 02000000 00010000 "pnor"` gives /dev/mtd4 |
| `Common.GetDevMtd` | common.c:77-107 | The C loop over the lines, with its early exits, returns exactly `MtdDevice` of the listing. A listing that cannot be opened gives no device |

## Left out

- sd-bus library calls: `sd_bus_default_system`, building and appending to the method call, `sd_bus_call`, reading the reply, and the unref/free calls. These are foreign code. The bus is an oracle; the connection attempt's return code is a parameter of `RunMain`.
- Releasing the bus message references and the bus error on every path of `send_dbus_msg` is not modelled. Those are sd-bus reference counts that the oracle hides. Every modelled path reaches the method's single exit.
- `getopt_long` argument parsing is library behaviour. Dispatch runs over the already-decoded options (`CmdOpt`). The optstring quirks (a second `s`, `s:`, no short form for `e`) and the long name `flash_modified` are not modelled.
- Console output: standard-error messages, the usage banner and the version banner are not modelled. The stdout line that a handler prints is modelled. `usage()` calling `exit(0)` is modelled as the run ending with 0.
- Logging (`mbox_log_console`, `mbox_log`) uses the clock, stream I/O and varargs, and is not modelled; `mbox_vlog` is not part of this model.
- Reading `/proc/mtd`: `fopen`/`fgets`/`fclose` are replaced by a listing of `Line` values. `fgets`'s 255-byte buffer is not modelled: a caller must split a line of more than 253 characters into an incomplete line. Any NUL byte in a line makes it fail the line-feed test (`EndsAtLineFeed`); for a NUL as the line's first byte the C code reads `line[-1]`, which is undefined, and the model treats that line as failing the test too.
- Allocation failures are not modelled: `asprintf` and `calloc` failures, and the leak of `msg.args` in the resume handler.
- `get_u16`/`get_u32` read through a cast pointer. Alignment and strict-aliasing concerns are not modelled; the read is treated as a byte copy.
- `mbox.h` holds only constants and struct layouts that the modelled code does not use.
- The values of the `mbox_dbus.h` constants are not modelled: they are the parameter `Codes`, constrained only by `Codes.Valid()`.
