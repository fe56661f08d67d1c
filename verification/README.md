# Energy monitor and alert notifiers — a Dafny model

This project models two pieces of a small Kotlin home-automation demo.

**Energy side (`Energia.kt`).**
- A simulated sensor emits power readings. Each reading is 0 W when the sensor is switched off. Otherwise it is the base power plus a random fluctuation, floored at 0.
- The monitor keeps the latest reading of every device, last writer wins. After each reading it emits a snapshot with three figures:
  - the watts per device;
  - the sum per room, where a missing room counts as `"desconhecido"`;
  - a total.

**Notifier side (`Notificador.kt`).**
- A console notifier prints one line per alert.
- A Telegram notifier builds a Markdown message, cuts it to 4096 UTF-16 code units and sends it as a GET to the Bot API's `sendMessage`. An unsuccessful status or a client exception goes to standard error and is swallowed.
- A composite forwards an alert to its targets in order.

Modules:

- `Wrappers`: `Option` and `Result`.
- `Utf16`: Kotlin strings as sequences of UTF-16 code units (`KStr`). It holds the UTF-16 encoding of literals, `take`, `Int.toString`, and the splitting used to read formatted lines back.
- `LinkedMap`: Kotlin's `LinkedHashMap` as an association list in insertion order.
  - `Put` replaces the value of an existing key in place and appends a new key at the end.
  - `ToMap` is the order-free map view.
  - `SumMap` is a sum that does not depend on iteration order.
- `Energia`: readings, snapshots, the sensor's emission rule, and the monitor as a fold over the merged stream of readings.
- `Notificacao`: alerts, the three notifiers, and the observable effects of `enviar`.
  - The effects are the lines written to standard output and standard error, and the HTTP requests.
  - A call ends either normally or with the exception that escapes it.

Inputs from the outside world become parameters:

| Kotlin source | Model |
|---|---|
| `Random.nextDouble(-variacao, variacao)` | the value `delta` |
| `Instant.now()` | an opaque `Instant` |
| `URLEncoder.encode` | an arbitrary function in `Rede` |
| whether `URI.create` accepts a URL | an arbitrary predicate in `Rede` |
| the HTTP exchange | a function from URL to `Resposta` in `Rede` |
| the environment variables and system properties | the four arguments of `ResolverConfig` |

The alert type is defined outside the two files. Its fields `deviceId`, `tipo` and `detalhe`, in that constructor order, are taken from its uses at `Notificador.kt:16` and `Main.kt:40`.

Two behaviours of the code are worth stating up front:

- **Composite dispatch.** `alvos.forEach { it.enviar(alerta) }` (`Notificador.kt:51`) does not isolate failures: an exception from a target ends the loop and escapes. `Notificacao.CompositeParaNaFalha` states that the later targets are never called.
- **URL rejection.** `URI.create(url)` (`Notificador.kt:38`) runs outside the `try`, so a URL that `URI.create` rejects escapes `enviar` as an exception. A token containing a space is one example. `Notificacao.EnviarTelegram` models this.

## Model

| member | source | states |
|---|---|---|
| Energia.Watts | src/main/kotlin/br/com/casainteligente/mini/energia/Energia.kt:44-45 | the emitted watts are never negative and are 0 when the sensor is off; when on they are at least base + delta and equal to it unless that is negative (then 0); a non-zero value lies in [base − variação, base + variação) |
| Energia.Emitir | src/main/kotlin/br/com/casainteligente/mini/energia/Energia.kt:44-46 | an emission succeeds exactly when the random range (−variação, variação) is non-empty, even for a switched-off sensor since the draw happens first; the failure names the range; a reading carries the timestamp, the sensor's device id and room, and watts equal to `Watts` of that draw (non-negative, 0 when off) |
| Energia.AoVivoSensor | src/main/kotlin/br/com/casainteligente/mini/energia/Energia.kt:37-50 | over a run of emissions and on/off commands the sensor emits one reading per emission, each with its device id and room and non-negative watts; the flow fails exactly when some emission happens and the random range is empty |
| Energia.AoVivoSensorLeitura | src/main/kotlin/br/com/casainteligente/mini/energia/Energia.kt:38-47 | the reading of the emission at event i is the one after the readings of the earlier emissions; it carries that emission's timestamp, the device id and room, and the watts of that draw under the on/off flag the last earlier command left (the initial flag if none) |
| Energia.DesligadoEmiteZero | src/main/kotlin/br/com/casainteligente/mini/energia/Energia.kt:38-45 | a switched-off sensor that is not switched back on emits only 0 W readings |
| Energia.SensorPadraoSemBaseFalha | src/main/kotlin/br/com/casainteligente/mini/energia/Energia.kt:31-44 | with the default variance (10% of the base) a sensor whose base is not positive fails at its first emission |
| Energia.RegistrarMap | src/main/kotlin/br/com/casainteligente/mini/energia/Energia.kt:60 | recording a reading binds its device id to it and leaves every other device's entry unchanged; the state stays keyed by each reading's own device id, once |
| Energia.RegistrarAlteraUmDispositivo | src/main/kotlin/br/com/casainteligente/mini/energia/Energia.kt:60-61 | after a reading the snapshot's figure for its device is that reading's watts, and every other device's figure is what it was |
| Energia.NoComodo | src/main/kotlin/br/com/casainteligente/mini/energia/Energia.kt:68 | a room's group holds only readings of that room, taken from the input; a room that does not occur has an empty group |
| Energia.NoComodoCompleto | src/main/kotlin/br/com/casainteligente/mini/energia/Energia.kt:68 | a room's group holds every reading of that room exactly as many times as the input does, and no reading of another room |
| Energia.AgruparCorreto | src/main/kotlin/br/com/casainteligente/mini/energia/Energia.kt:68 | grouping by room (null room as "desconhecido") yields one group per room present and no other, without duplicate keys, each holding exactly that room's readings in reading order |
| Energia.Snapshot | src/main/kotlin/br/com/casainteligente/mini/energia/Energia.kt:55-70 | the snapshot of the empty initial state has total 0 and no per-room or per-device figures |
| Energia.SnapshotPorDispositivo | src/main/kotlin/br/com/casainteligente/mini/energia/Energia.kt:67 | the per-device figures are for exactly the devices in the state, each the watts of that device's current reading |
| Energia.SnapshotComodos | src/main/kotlin/br/com/casainteligente/mini/energia/Energia.kt:68-69 | the per-room figures are for exactly the rooms of the current readings, a null room counted as "desconhecido" |
| Energia.SnapshotPorComodo | src/main/kotlin/br/com/casainteligente/mini/energia/Energia.kt:68-69 | each per-room figure is the sum of the watts of the current readings in that room |
| Energia.TotalSomaLeituras | src/main/kotlin/br/com/casainteligente/mini/energia/Energia.kt:67-70 | the total is the sum of the watts of the current readings |
| Energia.SomaPorComodo | src/main/kotlin/br/com/casainteligente/mini/energia/Energia.kt:68-69 | grouping by room neither loses nor duplicates watts: the group sums add up to the sum of all readings |
| Energia.TotalIgualSomaPorComodo | src/main/kotlin/br/com/casainteligente/mini/energia/Energia.kt:65-70 | in exact arithmetic the per-room figures add up to the total |
| Energia.TotalIgualSomaPorDispositivo | src/main/kotlin/br/com/casainteligente/mini/energia/Energia.kt:67-70 | the total equals the sum of the per-device map, independently of its iteration order |
| Energia.SnapshotNaoNegativo | src/main/kotlin/br/com/casainteligente/mini/energia/Energia.kt:65-70 | when no current reading is negative (as every simulated reading is), no figure of the snapshot is negative |
| Energia.EstadoGuardaUltimas | src/main/kotlin/br/com/casainteligente/mini/energia/Energia.kt:55-60 | after any run of readings from the empty state, the state holds exactly the devices seen, each with its most recent reading; unseen devices are absent |
| Energia.PorDispositivoAposLeituras | src/main/kotlin/br/com/casainteligente/mini/energia/Energia.kt:55-67 | after a run, the per-device figures are for exactly the devices seen, each the watts of its most recent reading |
| Energia.HistoricoAt | src/main/kotlin/br/com/casainteligente/mini/energia/Energia.kt:57-62 | the live flow emits one snapshot per reading, the k-th being the snapshot of the state after the first k + 1 readings |
| Energia.HistoricoPorDispositivo | src/main/kotlin/br/com/casainteligente/mini/energia/Energia.kt:57-67 | the k-th emitted snapshot has per-device figures for exactly the devices seen in the first k + 1 readings, each the watts of its latest reading so far |
| Energia.AoVivo | src/main/kotlin/br/com/casainteligente/mini/energia/Energia.kt:57-62 | the loop that updates the state per reading and emits a snapshot each time ends in the state of the whole run and emits the snapshot history of the run |
| LinkedMap.PutMap | src/main/kotlin/br/com/casainteligente/mini/energia/Energia.kt:60 | `map + (k to v)` binds k to v and keeps every other binding; keys stay unique |
| LinkedMap.PutOrder | src/main/kotlin/br/com/casainteligente/mini/energia/Energia.kt:60 | an existing key keeps its position with the new value; a new key is appended last |
| LinkedMap.MapValuesGet | src/main/kotlin/br/com/casainteligente/mini/energia/Energia.kt:67 | `mapValues` keeps the keys and their order and applies the function to each value |
| LinkedMap.SumValuesIsSumMap | src/main/kotlin/br/com/casainteligente/mini/energia/Energia.kt:70 | summing the values in iteration order equals the order-free sum over the map |
| Notificacao.LinhaConsole | src/main/kotlin/br/com/casainteligente/mini/notificacao/Notificador.kt:16 | the console line starts with the siren emoji and is 9 code units longer than the three fields together |
| Notificacao.LinhaConsoleIdaVolta | src/main/kotlin/br/com/casainteligente/mini/notificacao/Notificador.kt:16 | when the kind has no `]` and the device id no em dash, the console line reads back as exactly the alert printed |
| Notificacao.LerLinhaConsoleCorreto | src/main/kotlin/br/com/casainteligente/mini/notificacao/Notificador.kt:16 | every text that reads back as an alert is exactly that alert's console line |
| Notificacao.ResolverConfig | src/main/kotlin/br/com/casainteligente/mini/notificacao/Notificador.kt:21-26 | each setting comes from the environment variable, else the system property; construction fails exactly when one is missing from both, with the token's message when the token is missing |
| Notificacao.MensagemTelegram | src/main/kotlin/br/com/casainteligente/mini/notificacao/Notificador.kt:30-33 | the message starts with the siren emoji and is 35 code units longer than the three fields together |
| Notificacao.RotuloDispositivoUtf16 | src/main/kotlin/br/com/casainteligente/mini/notificacao/Notificador.kt:32 | the device label, written one code unit per character, is the UTF-16 encoding of ``*Dispositivo:* ` `` |
| Notificacao.MensagemTelegramIdaVolta | src/main/kotlin/br/com/casainteligente/mini/notificacao/Notificador.kt:30-33 | when the kind has no `*` and the device id no backquote, the message reads back as exactly the alert |
| Notificacao.LerMensagemTelegramCorreto | src/main/kotlin/br/com/casainteligente/mini/notificacao/Notificador.kt:30-33 | every text that reads back as an alert is exactly that alert's message |
| Notificacao.TextoTelegram | src/main/kotlin/br/com/casainteligente/mini/notificacao/Notificador.kt:30-34 | the sent text has at most 4096 code units, is a prefix of the message, equals it when the message fits and has exactly 4096 units otherwise |
| Notificacao.TextoCurtoIntegro | src/main/kotlin/br/com/casainteligente/mini/notificacao/Notificador.kt:30-34 | fields totalling at most 4061 code units are sent whole, so the alert reads back from the text sent |
| Notificacao.CorteSeparaSurrogates | src/main/kotlin/br/com/casainteligente/mini/notificacao/Notificador.kt:34 | the cut counts code units: an emoji straddling the limit leaves a lone high surrogate at the end of the text |
| Notificacao.UrlTelegram | src/main/kotlin/br/com/casainteligente/mini/notificacao/Notificador.kt:35-37 | the URL starts with the bot's `sendMessage` address and query for this chat, and ends with the encoded text |
| Notificacao.UrlIdaVolta | src/main/kotlin/br/com/casainteligente/mini/notificacao/Notificador.kt:35-37 | stripping this bot's and chat's URL prefix recovers exactly the encoded text |
| Notificacao.UrlInjetiva | src/main/kotlin/br/com/casainteligente/mini/notificacao/Notificador.kt:35-37 | texts the encoder tells apart give different URLs |
| Notificacao.ErroStatusIdaVolta | src/main/kotlin/br/com/casainteligente/mini/notificacao/Notificador.kt:42 | the status error line reads back as exactly the status and the response body |
| Notificacao.FalhaEnvio | src/main/kotlin/br/com/casainteligente/mini/notificacao/Notificador.kt:45 | the client-failure line starts with its fixed prefix and, for a non-null message, continues with exactly that message |
| Notificacao.Tentar | src/main/kotlin/br/com/casainteligente/mini/notificacao/Notificador.kt:39-46 | the `try` block never lets an exception escape; it issues the request first and writes nothing to standard output; it issues exactly one request, and every later effect is a standard-error line; it logs no error line for a 2xx status and exactly one for any other status or a client exception, for a client exception the `Falha ao enviar Telegram: ` line with its message ("null" if none) |
| Notificacao.TentarRelataStatus | src/main/kotlin/br/com/casainteligente/mini/notificacao/Notificador.kt:41-42 | for a status outside 200..299 the logged line carries that status and the body |
| Notificacao.EnviarTelegram | src/main/kotlin/br/com/casainteligente/mini/notificacao/Notificador.kt:35-46 | the call escapes with an exception exactly when `URI.create` rejects the URL, and then does nothing else; otherwise it runs the `try` block on that URL |
| Notificacao.TelegramEnviaTexto | src/main/kotlin/br/com/casainteligente/mini/notificacao/Notificador.kt:30-40 | the request goes to this bot and chat and carries the encoded sent text |
| Notificacao.EnviarTodosEmOrdem | src/main/kotlin/br/com/casainteligente/mini/notificacao/Notificador.kt:50-51 | the composite calls its targets once each in order, up to and including the first that throws; its effects are theirs concatenated in order and it throws what that target threw |
| Notificacao.CompositeSemFalhas | src/main/kotlin/br/com/casainteligente/mini/notificacao/Notificador.kt:50-51 | when no target throws, every target's effects occur in constructor order and nothing escapes |
| Notificacao.CompositeParaNaFalha | src/main/kotlin/br/com/casainteligente/mini/notificacao/Notificador.kt:50-51 | a target that throws after targets that did not makes the composite throw the same; the targets after it are never called, whatever they are |
| Notificacao.SoConsolesNaoFalham | src/main/kotlin/br/com/casainteligente/mini/notificacao/Notificador.kt:14-51 | a console, or any nesting of composites of consoles, never throws and never writes to standard error |
| Utf16.Take | src/main/kotlin/br/com/casainteligente/mini/notificacao/Notificador.kt:34 | `take(n)` returns a prefix of at most n code units, the whole string when it is no longer than n, and exactly n units otherwise |
| Utf16.DecimalRoundTrip | src/main/kotlin/br/com/casainteligente/mini/notificacao/Notificador.kt:42 | the decimal text of an `Int` in a log line reads back as that integer |

## Left out

- Flow machinery is not modelled. This covers `merge` interleaving across sensors, the restart of a sensor's flow by `flatMapLatest` when it is switched, `delay(intervaloMs)` and the `MutableStateFlow` update. The monitor takes an already-merged sequence of readings, and a sensor's toggle takes effect at its next emission.
- Watts are exact reals. `Double` rounding, NaN and infinities are outside the model. The per-room and per-device sums equal the total only in exact arithmetic.
- Timestamps are opaque values and are never inspected.
- The HTTP client is not modelled: its builder, the 5 s connect timeout and the 10 s request timeout are absent. Its answer is a function of the URL alone, so two sends of the same URL get the same answer.
- `URLEncoder.encode` is an arbitrary function, and acceptance by `URI.create` is an arbitrary predicate.
- Line terminators are not part of the printed lines, and printing never fails. The interleaving of standard output with standard error is not modelled.
- Throwables that are not `Exception` (an `Error` raised inside `send`) would pass the `catch`. They are not modelled.
- The only other path that throws out of `enviar` is the URL rejection.
- Main.kt is not modelled: startup wiring, the choice of notifiers, the limit check and the top-2 display.
- The anomaly detector, the suggestion engine and the house model belong to files that are not part of this model.
- build.gradle.kts is build configuration only.
- Energia.Snapshot: its own contract covers only the empty state. What the figures mean is stated by the lemmas about it: `SnapshotPorDispositivo`, `SnapshotComodos`, `SnapshotPorComodo`, `TotalIgualSomaPorComodo` and `TotalIgualSomaPorDispositivo`.
