# Receipt printing console: a verified model

The application asks for a five-character payment identifier (`IdApi`), looks
up the matching rows of the SQLite `Transaction` table, orders them by creation
date, shows each one and sends a receipt to a thermal printer for each. This
project models the parts of it that hold logic:

- **IdInput** (`id_input.dfy`): `int.TryParse` with the default integer style,
  and the prompt's check built on it (non-empty, five characters, an integer).
- **Ordering** (`ordering.dfy`): `OrderBy(t => t.DateCreated)` as a stable
  insertion sort. It is proved sorted, a permutation, and order-keeping among
  equal dates. Any arrangement with those three properties is proved to be this
  one.
- **ThermalPrinter** (`thermal_printer.dfy`): the settings load and the logo
  load done by the service's constructor. `PrintPage` lays the receipt out with
  a vertical cursor. `ImprimirRecibo` catches a printer exception and only
  writes an error message to the console. In the model, `PrintResult` stands
  for what happened, but the source's caller gets nothing back. That is why
  the shell reports every attempt that returns as printed.
- **Shell** (`shell.dfy`): the session driven by `Main`. It covers the invalid,
  not-found and lookup-exception branches, and the print loop. An exception
  from one print attempt is caught there, and the loop goes on.
- **Domain** and **Wrappers**: the `Transaction` record and `Option`.

Inputs the program reads from the outside world are parameters:
- the console line is an `Option<string>` (None is end of input);
- the repository is a function from identifier to `Lookup` (rows, null, or an exception);
- whether a print attempt throws is a predicate on the transaction;
- the settings file is a `ConfigRead` value;
- the file system is a map from path to bytes;
- the date text printed on the receipt is a string.

The model follows the code as written, which means:
- The laid-out page does not use the transaction. It draws a fixed title, the
  current date, and two fixed sample lines (a client name and an amount).
- `Program.cs` calls `ImprimirRecibo(transaction)`, but the service's
  `ImprimirRecibo` takes no argument. So the shell's print attempt is modelled
  on its own, as an input predicate.
- The service's `ImprimirRecibo` already catches printer exceptions. With that
  service, the shell's catch around each attempt can only see exceptions from
  elsewhere (console writes, the pause between prints).
- The space reserved for the logo (130 units) is taken whether or not a logo
  is drawn.
- Nothing is word-wrapped, formatted as currency or separated by rules. The
  layout is the five draw calls shown.

## Model

| member | source | states |
|---|---|---|
| IdInput.TryParseInt32 | PrinterSQLiteApp.Console/Program.cs:41 | a successful parse yields a 32-bit integer |
| IdInput.ParseComplete | PrinterSQLiteApp.Console/Program.cs:41 | text made of white space, an optional sign, a non-empty digit run and white space is accepted exactly when its value fits in 32 bits, and yields that value |
| IdInput.ParseSound | PrinterSQLiteApp.Console/Program.cs:41 | every accepted text has that shape, and the result is the value the shape denotes |
| IdInput.ValidateId | PrinterSQLiteApp.Console/Program.cs:41 | input whose length is not 5 is rejected; an accepted id is a 32-bit integer |
| IdInput.AcceptedIdRange | PrinterSQLiteApp.Console/Program.cs:41 | every accepted id lies in -9999..99999 |
| IdInput.FiveDigitsAccepted | PrinterSQLiteApp.Console/Program.cs:41 | any five decimal digits are accepted and give their decimal value, leading zeros included |
| IdInput.LeadingZerosExample | PrinterSQLiteApp.Console/Program.cs:41 | "00042" is accepted as 42 |
| Ordering.OrderByDate | PrinterSQLiteApp.Console/Program.cs:46 | the result is sorted by creation date, is a permutation of the input, and keeps input order among transactions with equal dates |
| Ordering.StableOrderIsUnique | PrinterSQLiteApp.Console/Program.cs:46 | any date-sorted arrangement that keeps input order among equal dates equals the model's result, so the model agrees with any stable sort |
| Ordering.SortedInputUnchanged | PrinterSQLiteApp.Console/Program.cs:46 | input already in date order comes back unchanged |
| ThermalPrinter.ThermalPrinterService.constructor | PrinterSQLiteApp.Infrastructure/Services/ThermalPrinterService.cs:19-51 | a settings read or parse failure, or a JSON `null`, leaves no image path and no logo, without an error. Parsed settings give their image path. A logo is held exactly when that path is non-empty and the file exists, and it is that file's image |
| ThermalPrinter.Receipt | PrinterSQLiteApp.Infrastructure/Services/ThermalPrinterService.cs:55-89 | with a logo the page has 5 instructions and the first is the logo at (left, top), 120 by 120. Without one there are 4 and no image. Every x is left, y strictly increases, and the logo's bottom edge is above the title. The last four are the text block |
| ThermalPrinter.TextBlock | PrinterSQLiteApp.Infrastructure/Services/ThermalPrinterService.cs:75-86 | four text runs at x = left with strictly increasing y, the first at top+130 and the last at top+200 |
| ThermalPrinter.LogoDoesNotMoveText | PrinterSQLiteApp.Infrastructure/Services/ThermalPrinterService.cs:62-68 | the page with a logo is the page without one preceded by the image |
| ThermalPrinter.ThermalPrinterService.PrintPage | PrinterSQLiteApp.Infrastructure/Services/ThermalPrinterService.cs:55-89 | the draw calls emitted step by step are exactly the page `Receipt` states, and the final cursor is top+220 |
| ThermalPrinter.ThermalPrinterService.ImprimirRecibo | PrinterSQLiteApp.Infrastructure/Services/ThermalPrinterService.cs:91-101 | a printer failure ends in the console error message (`PrintError`), never in an exception; otherwise the printed page is the receipt |
| Shell.PrintEach | PrinterSQLiteApp.Console/Program.cs:50-77 | exactly one attempt per transaction, in order; each records whether it ended without an exception reaching the loop's handler, and a failed attempt does not stop later ones |
| Shell.Run | PrinterSQLiteApp.Console/Program.cs:36-102 | end of input is read as the empty line and so is rejected. A rejected line ends the session as invalid input, with no lookup. For an accepted id: a lookup exception ends it as failed, and a null or empty list as not found with no print attempt. Otherwise the session attempts the found transactions in stable date order |

## Left out

- Console output, `Thread.Sleep` and `Environment.Exit`: terminal and process
  side effects. The transaction details written to the console before each
  print and the messages after it are not modelled.
- Startup in `Program.cs` (reading `config.json`, checking `RutaDb`, building
  the connection string): file system, JSON and SQLite plumbing with no logic
  of its own.
- `TransactionRepository` and `ITransactionRepository`: SQLite I/O and an
  interface. Their result is the `Lookup` parameter.
- `PrintDocument`, its event wiring, fonts' metrics, brushes and rasterisation.
  Each `DrawImage` and `DrawString` call is a `Draw` value. The brush (always
  black) is not recorded.
- `DateTime.Now.ToShortDateString()`: a clock read formatted by culture. It is
  the `today` parameter.
- `Image.FromFile` on a file that exists but is not an image: it would throw
  out of the constructor. The model loads every existing file.
- The duplicate `Config` and `Program` classes in the service's file have no
  logic.
- IdInput.TryParseInt32: culture-specific sign symbols are not modelled (only
  `+` and `-` are). Neither is the runtime's acceptance of trailing NUL
  characters.
- ThermalPrinter.ThermalPrinterService.PrintPage: coordinates are integers. The
  source adds in `float`, which is exact only while margins stay below 2^24.
- Domain.Transaction: `DateTime` is its tick count and `decimal` is an exact
  real. The 32-bit width of the `int` fields is not enforced.
