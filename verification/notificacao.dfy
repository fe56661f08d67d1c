/** The alert notifiers: a console notifier printing one line per alert, a
    Telegram notifier sending one Markdown message per alert over the Bot
    API, and a composite that forwards an alert to its targets in order.
    Side effects are recorded as a list of events (lines written to standard
    output or standard error, HTTP requests issued) plus the exception, if
    any, that escapes `enviar`. The network is a parameter. */
module Notificacao {
  import opened Wrappers
  import opened Utf16

  /** An anomaly alert: the device it concerns, its kind and a free-text detail. */
  datatype Alerta = Alerta(deviceId: KStr, tipo: KStr, detalhe: KStr)

  // ===== literals =====

  /** The siren emoji U+1F6A8 as a surrogate pair. */
  const Sirene: KStr := [0xD83D, 0xDEA8]

  lemma SireneUtf16()
    ensures Sirene == Lit("\U{1F6A8}")
    ensures IsHighSurrogate(Sirene[0]) && IsLowSurrogate(Sirene[1])
  {
  }

  const Espaco: CodeUnit := 0x20
  const Asterisco: CodeUnit := 0x2A
  const FechaColchete: CodeUnit := 0x5D
  const Crase: CodeUnit := 0x60
  const Travessao: CodeUnit := 0x2014
  const DoisPontos: CodeUnit := 0x3A

  // ===== two-field-delimited templates =====

  /** A text template `p0 f1 d1 p1 f2 d2 p2 f3`: three fields, the first two
      closed by a delimiter unit, with literal text around them. */
  datatype Molde = Molde(p0: KStr, d1: CodeUnit, p1: KStr, d2: CodeUnit, p2: KStr)

  function Preencher(m: Molde, f1: KStr, f2: KStr, f3: KStr): (s: KStr)
    ensures |s| == |m.p0| + |m.p1| + |m.p2| + |f1| + |f2| + |f3| + 2
    ensures m.p0 <= s
  {
    m.p0 + (f1 + ([m.d1] + (m.p1 + (f2 + ([m.d2] + (m.p2 + f3))))))
  }

  /** After the literal `p`, a field closed by the first `d`; returns the
      field and what follows the delimiter. */
  function Campo(p: KStr, d: CodeUnit, s: KStr): (r: Option<(KStr, KStr)>)
    ensures r.Some? <==> p <= s && d in s[|p|..]
  {
    match StripPrefix(p, s)
    case None => None
    case Some(s1) =>
      match SplitFirst(s1, d)
      case None => None
      case Some(par) => Some(par)
  }

  /** A field read is delimiter-free and sits between `p` and the delimiter. */
  lemma CampoSome(p: KStr, d: CodeUnit, s: KStr)
    requires Campo(p, d, s).Some?
    ensures var (f, resto) := Campo(p, d, s).value; d !in f && s == p + (f + ([d] + resto))
  {
    SplitFirstSome(s[|p|..], d);
  }

  lemma CampoDe(p: KStr, d: CodeUnit, f: KStr, resto: KStr)
    requires d !in f
    ensures Campo(p, d, p + (f + ([d] + resto))) == Some((f, resto))
  {
    var s1 := f + ([d] + resto);
    assert (p + s1)[|p|..] == s1;
    assert s1 == f + [d] + resto;
    SplitFirstOf(f, d, resto);
  }

  /** The three fields of a filled template, each of the first two ending
      at the first occurrence of its delimiter. */
  function Extrair(m: Molde, s: KStr): Option<(KStr, KStr, KStr)> {
    match Campo(m.p0, m.d1, s)
    case None => None
    case Some((f1, s2)) =>
      match Campo(m.p1, m.d2, s2)
      case None => None
      case Some((f2, s4)) =>
        match StripPrefix(m.p2, s4)
        case None => None
        case Some(f3) => Some((f1, f2, f3))
  }

  /** Fields free of their delimiters are read back exactly. */
  lemma ExtrairPreencher(m: Molde, f1: KStr, f2: KStr, f3: KStr)
    requires m.d1 !in f1 && m.d2 !in f2
    ensures Extrair(m, Preencher(m, f1, f2, f3)) == Some((f1, f2, f3))
  {
    var s4 := m.p2 + f3;
    var s2 := m.p1 + (f2 + ([m.d2] + s4));
    CampoDe(m.p0, m.d1, f1, s2);
    CampoDe(m.p1, m.d2, f2, s4);
    assert StripPrefix(m.p2, s4) == Some(f3);
  }

  /** Whatever reads back is the template filled with what was read. */
  lemma PreencherExtrair(m: Molde, s: KStr, f1: KStr, f2: KStr, f3: KStr)
    requires Extrair(m, s) == Some((f1, f2, f3))
    ensures m.d1 !in f1 && m.d2 !in f2 && Preencher(m, f1, f2, f3) == s
  {
    CampoSome(m.p0, m.d1, s);
    var (_, s2) := Campo(m.p0, m.d1, s).value;
    CampoSome(m.p1, m.d2, s2);
  }

  // ===== NotificadorConsole =====

  /** The console line: `<siren> [tipo] deviceId — detalhe`. */
  const MoldeConsole: Molde := Molde(Sirene + Bmp(" ["), FechaColchete, [Espaco], Travessao, [Espaco])

  /** The line the console notifier prints (without the line terminator). */
  function LinhaConsole(a: Alerta): (r: KStr)
    ensures |r| == |a.tipo| + |a.deviceId| + |a.detalhe| + 9
    ensures Sirene <= r
  {
    Sirene + Bmp(" [") + a.tipo + Bmp("] ") + a.deviceId + Bmp(" \U{2014} ") + a.detalhe
  }

  lemma LinhaConsoleMolde(a: Alerta)
    ensures LinhaConsole(a) == Preencher(MoldeConsole, a.tipo, a.deviceId + [Espaco], a.detalhe)
  {
  }

  /** Reads an alert back from a console line: the kind ends at the first
      `]`, the device id right before the first em dash. */
  function LerLinhaConsole(r: KStr): Option<Alerta> {
    match Extrair(MoldeConsole, r)
    case None => None
    case Some((tipo, x, detalhe)) =>
      if |x| == 0 || x[|x| - 1] != Espaco then None
      else Some(Alerta(x[..|x| - 1], tipo, detalhe))
  }

  /** Alerts whose kind has no `]` and whose device id has no em dash. */
  predicate LegivelNoConsole(a: Alerta) {
    FechaColchete !in a.tipo && Travessao !in a.deviceId
  }

  /** The console line determines the alert it was printed for. */
  lemma LinhaConsoleIdaVolta(a: Alerta)
    requires LegivelNoConsole(a)
    ensures LerLinhaConsole(LinhaConsole(a)) == Some(a)
  {
    var x := a.deviceId + [Espaco];
    LinhaConsoleMolde(a);
    ExtrairPreencher(MoldeConsole, a.tipo, x, a.detalhe);
    assert x[..|x| - 1] == a.deviceId;
  }

  /** Conversely, whatever reads back as an alert is that alert's console line. */
  lemma LerLinhaConsoleCorreto(r: KStr)
    requires LerLinhaConsole(r).Some?
    ensures LegivelNoConsole(LerLinhaConsole(r).value)
    ensures LinhaConsole(LerLinhaConsole(r).value) == r
  {
    var (tipo, x, detalhe) := Extrair(MoldeConsole, r).value;
    PreencherExtrair(MoldeConsole, r, tipo, x, detalhe);
    var d := x[..|x| - 1];
    assert x == d + [Espaco];
    LinhaConsoleMolde(Alerta(d, tipo, detalhe));
  }

  // ===== NotificadorTelegram: configuration =====

  /** The bot token and the chat the messages go to. */
  datatype Config = Config(token: KStr, chatId: KStr)

  const SemToken: KStr := Bmp("TELEGRAM_BOT_TOKEN ou -Dtelegram.bot.token n\U{E3}o configurado")
  const SemChat: KStr := Bmp("TELEGRAM_CHAT_ID ou -Dtelegram.chat.id n\U{E3}o configurado")

  /** The constructor's defaults: each setting comes from the environment
      variable, else the system property, else construction fails with
      `IllegalStateException`. The token is resolved first, so its message
      wins when both are missing. */
  function ResolverConfig(
    envToken: Option<KStr>, propToken: Option<KStr>,
    envChat: Option<KStr>, propChat: Option<KStr>): (r: Result<Config, KStr>)
    ensures r.Success? <==> (envToken.Some? || propToken.Some?) && (envChat.Some? || propChat.Some?)
    ensures r.Success? ==>
      && (envToken.Some? ==> r.value.token == envToken.value)
      && (envToken.None? ==> Some(r.value.token) == propToken)
      && (envChat.Some? ==> r.value.chatId == envChat.value)
      && (envChat.None? ==> Some(r.value.chatId) == propChat)
    ensures r.Failure? ==> r.error == (if envToken.None? && propToken.None? then SemToken else SemChat)
  {
    var token := if envToken.Some? then envToken else propToken;
    if token.None? then Failure(SemToken)
    else
      var chat := if envChat.Some? then envChat else propChat;
      if chat.None? then Failure(SemChat)
      else Success(Config(token.value, chat.value))
  }

  // ===== NotificadorTelegram: message and URL =====

  const NovaLinha: CodeUnit := 0x0A
  const RotuloDispositivo: KStr := Bmp("*Dispositivo:* `")
  const RotuloDetalhe: KStr := Bmp("*Detalhe:* ")

  /** The Telegram message: `<siren> *tipo*`, then `*Dispositivo:* `
      with the device id as inline code, then `*Detalhe:* ` and the detail. */
  const MoldeTelegram: Molde :=
    Molde(Sirene + [Espaco, Asterisco], Asterisco, [NovaLinha] + RotuloDispositivo, Crase, [NovaLinha] + RotuloDetalhe)

  /** Telegram's limit on the length of a message, in UTF-16 code units. */
  const LimiteTelegram: nat := 4096

  /** The Markdown message before truncation, built line by line. */
  function MensagemTelegram(a: Alerta): (r: KStr)
    ensures |r| == |a.tipo| + |a.deviceId| + |a.detalhe| + 35
    ensures Sirene <= r
  {
    var linha1 := Sirene + [Espaco, Asterisco] + a.tipo + [Asterisco, NovaLinha];
    var linha2 := RotuloDispositivo + a.deviceId + [Crase, NovaLinha];
    var linha3 := RotuloDetalhe + a.detalhe;
    linha1 + linha2 + linha3
  }

  lemma MensagemTelegramMolde(a: Alerta)
    ensures MensagemTelegram(a) == Preencher(MoldeTelegram, a.tipo, a.deviceId, a.detalhe)
  {
    var linha1 := Sirene + [Espaco, Asterisco] + a.tipo + [Asterisco, NovaLinha];
    var linha2 := RotuloDispositivo + a.deviceId + [Crase, NovaLinha];
    var linha3 := RotuloDetalhe + a.detalhe;
    var resto2 := a.deviceId + ([Crase] + (([NovaLinha] + RotuloDetalhe) + a.detalhe));
    assert linha2 + linha3 == RotuloDispositivo + resto2;
    var resto1 := a.tipo + ([Asterisco] + (([NovaLinha] + RotuloDispositivo) + resto2));
    assert linha1 + (linha2 + linha3) == (Sirene + [Espaco, Asterisco]) + resto1;
  }

  /** Reads an alert back from a message: the kind ends at the first `*`,
      the device id at the first backquote. */
  function LerMensagemTelegram(m: KStr): Option<Alerta> {
    match Extrair(MoldeTelegram, m)
    case None => None
    case Some((tipo, deviceId, detalhe)) => Some(Alerta(deviceId, tipo, detalhe))
  }

  /** Alerts whose kind has no `*` and whose device id has no backquote. */
  predicate LegivelNoTelegram(a: Alerta) {
    Asterisco !in a.tipo && Crase !in a.deviceId
  }

  /** The untruncated message determines the alert. */
  lemma MensagemTelegramIdaVolta(a: Alerta)
    requires LegivelNoTelegram(a)
    ensures LerMensagemTelegram(MensagemTelegram(a)) == Some(a)
  {
    MensagemTelegramMolde(a);
    ExtrairPreencher(MoldeTelegram, a.tipo, a.deviceId, a.detalhe);
  }

  /** Conversely, whatever reads back as an alert is that alert's message. */
  lemma LerMensagemTelegramCorreto(m: KStr)
    requires LerMensagemTelegram(m).Some?
    ensures LegivelNoTelegram(LerMensagemTelegram(m).value)
    ensures MensagemTelegram(LerMensagemTelegram(m).value) == m
  {
    var (tipo, deviceId, detalhe) := Extrair(MoldeTelegram, m).value;
    PreencherExtrair(MoldeTelegram, m, tipo, deviceId, detalhe);
    MensagemTelegramMolde(LerMensagemTelegram(m).value);
  }

  /** The text actually sent: the message cut to Telegram's limit. */
  function TextoTelegram(a: Alerta): (t: KStr)
    ensures |t| <= LimiteTelegram
    ensures t <= MensagemTelegram(a)
    ensures |MensagemTelegram(a)| <= LimiteTelegram ==> t == MensagemTelegram(a)
    ensures |MensagemTelegram(a)| > LimiteTelegram ==> |t| == LimiteTelegram
  {
    Take(MensagemTelegram(a), LimiteTelegram)
  }

  /** Fields adding up to at most 4061 code units are sent whole, so the
      alert can be read back from the text sent. */
  lemma TextoCurtoIntegro(a: Alerta)
    requires |a.tipo| + |a.deviceId| + |a.detalhe| <= LimiteTelegram - 35
    requires LegivelNoTelegram(a)
    ensures TextoTelegram(a) == MensagemTelegram(a)
    ensures LerMensagemTelegram(TextoTelegram(a)) == Some(a)
  {
    MensagemTelegramIdaVolta(a);
  }

  /** The cut counts code units, not characters: an emoji straddling the
      limit loses its second half, leaving a lone high surrogate at the end. */
  lemma CorteSeparaSurrogates()
    ensures var a := Alerta([], [], seq(LimiteTelegram - 36, _ => 0x61 as CodeUnit) + Sirene);
      var t := TextoTelegram(a);
      |t| == LimiteTelegram && IsHighSurrogate(t[|t| - 1])
  {
    var a := Alerta([], [], seq(LimiteTelegram - 36, _ => 0x61 as CodeUnit) + Sirene);
    var m := MensagemTelegram(a);
    assert m[LimiteTelegram - 1] == Sirene[0];
  }

  /** The request URL up to the encoded text. */
  function PrefixoUrl(cfg: Config): (p: KStr)
    ensures |p| == |cfg.token| + |cfg.chatId| + 75
  {
    Bmp("https://api.telegram.org/bot") + cfg.token + Bmp("/sendMessage")
      + Bmp("?chat_id=") + cfg.chatId + Bmp("&parse_mode=Markdown&text=")
  }

  /** The `sendMessage` GET URL; `encode` is `URLEncoder.encode(_, UTF_8)`. */
  function UrlTelegram(cfg: Config, texto: KStr, encode: KStr -> KStr): (u: KStr)
    ensures PrefixoUrl(cfg) <= u
    ensures |u| == |PrefixoUrl(cfg)| + |encode(texto)|
  {
    PrefixoUrl(cfg) + encode(texto)
  }

  /** The encoded text carried by a URL of this bot and chat. */
  function TextoNaUrl(cfg: Config, u: KStr): Option<KStr> {
    StripPrefix(PrefixoUrl(cfg), u)
  }

  /** The URL carries exactly the encoded text, as its last parameter. */
  lemma UrlIdaVolta(cfg: Config, texto: KStr, encode: KStr -> KStr)
    ensures TextoNaUrl(cfg, UrlTelegram(cfg, texto, encode)) == Some(encode(texto))
  {
    assert (PrefixoUrl(cfg) + encode(texto))[|PrefixoUrl(cfg)|..] == encode(texto);
  }

  /** Distinct texts give distinct URLs whenever the encoder tells them apart. */
  lemma UrlInjetiva(cfg: Config, t1: KStr, t2: KStr, encode: KStr -> KStr)
    requires encode(t1) != encode(t2)
    ensures UrlTelegram(cfg, t1, encode) != UrlTelegram(cfg, t2, encode)
  {
    UrlIdaVolta(cfg, t1, encode);
    UrlIdaVolta(cfg, t2, encode);
  }

  // ===== NotificadorTelegram: sending =====

  /** What the HTTP client's `send` does: answer with a status and a body,
      or throw (an `IOException`, say) whose message may be null. */
  datatype Resposta =
    | Http(status: int, corpo: KStr)
    | ErroCliente(mensagem: Option<KStr>)

  /** The outside world a notifier talks to: the URL encoder, whether
      `URI.create` accepts a string, and the answer to a GET of a URL. */
  datatype Rede = Rede(encode: KStr -> KStr, uriValida: KStr -> bool, enviar: KStr -> Resposta)

  /** One observable effect of `enviar`. */
  datatype Evento =
    | Stdout(linha: KStr)
    | Stderr(linha: KStr)
    | HttpGet(url: KStr)

  /** An exception escaping `enviar`: `URI.create` rejecting the URL, which
      happens before the `try`. */
  datatype Excecao = UriInvalida(url: KStr)

  /** The effects of one `enviar` call, in order, and how it ended. */
  datatype Saida = Saida(eventos: seq<Evento>, falha: Option<Excecao>)

  /** A status in 200..299 is a success. */
  predicate StatusSucesso(status: int) { 200 <= status <= 299 }

  const PrefixoErroStatus: KStr := Bmp("Telegram erro ")
  const PrefixoFalhaEnvio: KStr := Bmp("Falha ao enviar Telegram: ")

  /** The device label, written one code unit per character, is its UTF-16
      encoding. */
  lemma RotuloDispositivoUtf16()
    ensures RotuloDispositivo == Lit("*Dispositivo:* `")
  {
    BmpIsLit("*Dispositivo:* `");
  }

  /** The standard-error line for an unsuccessful status. */
  function ErroStatus(status: int, corpo: KStr): (l: KStr)
    ensures PrefixoErroStatus <= l
  {
    PrefixoErroStatus + Decimal(status) + [DoisPontos, Espaco] + corpo
  }

  /** The standard-error line for a client exception; a null message prints as "null". */
  function FalhaEnvio(mensagem: Option<KStr>): (l: KStr)
    ensures PrefixoFalhaEnvio <= l
    ensures mensagem.Some? ==> l == PrefixoFalhaEnvio + mensagem.value
  {
    PrefixoFalhaEnvio + mensagem.GetOr(Bmp("null"))
  }

  /** Reads the status and body back from an error line. */
  function LerErroStatus(l: KStr): Option<(int, KStr)> {
    match StripPrefix(PrefixoErroStatus, l)
    case None => None
    case Some(s) =>
      match SplitFirst(s, DoisPontos)
      case None => None
      case Some((d, resto)) =>
        match ParseDecimal(d)
        case None => None
        case Some(status) =>
          match StripPrefix([Espaco], resto)
          case None => None
          case Some(corpo) => Some((status, corpo))
  }

  lemma SemDoisPontosEmDecimal(n: int)
    ensures DoisPontos !in Decimal(n)
  {
    if n < 0 {
      assert Decimal(n) == [Minus] + Digits(-n);
    }
  }

  /** The error line reports the status and the body unaltered. */
  lemma ErroStatusIdaVolta(status: int, corpo: KStr)
    ensures LerErroStatus(ErroStatus(status, corpo)) == Some((status, corpo))
  {
    var d := Decimal(status);
    var resto := [Espaco] + corpo;
    assert ErroStatus(status, corpo) == PrefixoErroStatus + (d + [DoisPontos] + resto);
    SemDoisPontosEmDecimal(status);
    SplitFirstOf(d, DoisPontos, resto);
    DecimalRoundTrip(status);
    assert resto[1..] == corpo;
  }

  /** The number of standard-error lines among the effects. */
  function NumErros(evs: seq<Evento>): nat {
    if |evs| == 0 then 0 else (if evs[0].Stderr? then 1 else 0) + NumErros(evs[1..])
  }

  /** The `try` block: send the GET, then log an unsuccessful status or a
      client exception to standard error instead of letting it escape. */
  function Tentar(url: KStr, resposta: Resposta): (r: Saida)
    ensures r.falha.None?
    ensures 1 <= |r.eventos| <= 2 && r.eventos[0] == HttpGet(url)
    ensures NumErros(r.eventos) == (if resposta.Http? && StatusSucesso(resposta.status) then 0 else 1)
    ensures |r.eventos| == 1 + NumErros(r.eventos)
    ensures forall i :: 0 <= i < |r.eventos| ==> !r.eventos[i].Stdout?
    ensures resposta.ErroCliente? ==> r.eventos == [HttpGet(url), Stderr(FalhaEnvio(resposta.mensagem))]
  {
    match resposta
    case Http(status, corpo) =>
      if StatusSucesso(status) then Saida([HttpGet(url)], None)
      else ComErro(url, ErroStatus(status, corpo))
    case ErroCliente(m) => ComErro(url, FalhaEnvio(m))
  }

  /** The request followed by one line on standard error. */
  function ComErro(url: KStr, linha: KStr): (r: Saida)
    ensures NumErros(r.eventos) == 1
  {
    var evs := [HttpGet(url), Stderr(linha)];
    assert evs[1..] == [Stderr(linha)] && evs[1..][1..] == [];
    assert NumErros(evs[1..]) == 1;
    Saida(evs, None)
  }

  /** An unsuccessful status is logged with the status and the body unaltered. */
  lemma TentarRelataStatus(url: KStr, status: int, corpo: KStr)
    requires !StatusSucesso(status)
    ensures LerErroStatus(Tentar(url, Http(status, corpo)).eventos[1].linha) == Some((status, corpo))
  {
    ErroStatusIdaVolta(status, corpo);
  }

  /** `NotificadorTelegram.enviar`: build the text and the URL and let
      `URI.create` check the URL, whose exception escapes since it is raised
      before the `try`; then run the `try` block. */
  function EnviarTelegram(cfg: Config, a: Alerta, rede: Rede): (r: Saida)
    ensures var url := UrlTelegram(cfg, TextoTelegram(a), rede.encode);
      && (r.falha.Some? <==> !rede.uriValida(url))
      && (r.falha.Some? ==> r == Saida([], Some(UriInvalida(url))))
      && (r.falha.None? ==> r == Tentar(url, rede.enviar(url)))
  {
    var url := UrlTelegram(cfg, TextoTelegram(a), rede.encode);
    if !rede.uriValida(url) then Saida([], Some(UriInvalida(url)))
    else Tentar(url, rede.enviar(url))
  }

  /** The request goes to this bot and chat and carries the sent text. */
  lemma TelegramEnviaTexto(cfg: Config, a: Alerta, rede: Rede)
    requires EnviarTelegram(cfg, a, rede).falha.None?
    ensures var u := EnviarTelegram(cfg, a, rede).eventos[0].url;
      TextoNaUrl(cfg, u) == Some(rede.encode(TextoTelegram(a)))
  {
    UrlIdaVolta(cfg, TextoTelegram(a), rede.encode);
  }

  // ===== Notificador and NotificadorComposite =====

  /** The three notifiers; a composite holds its targets in constructor order. */
  datatype Notificador =
    | Console
    | Telegram(cfg: Config)
    | Composite(alvos: seq<Notificador>)

  /** `enviar(alerta)` on any notifier. */
  function Enviar(n: Notificador, a: Alerta, rede: Rede): Saida
    decreases n
  {
    match n
    case Console => Saida([Stdout(LinhaConsole(a))], None)
    case Telegram(cfg) => EnviarTelegram(cfg, a, rede)
    case Composite(alvos) => EnviarTodos(alvos, a, rede)
  }

  /** `alvos.forEach { it.enviar(alerta) }`: an exception from a target
      ends the loop and escapes. */
  function EnviarTodos(alvos: seq<Notificador>, a: Alerta, rede: Rede): Saida
    decreases alvos
  {
    if |alvos| == 0 then Saida([], None)
    else
      var r := Enviar(alvos[0], a, rede);
      if r.falha.Some? then r
      else
        var resto := EnviarTodos(alvos[1..], a, rede);
        Saida(r.eventos + resto.eventos, resto.falha)
  }

  /** What each target would do on its own. */
  function Resultados(alvos: seq<Notificador>, a: Alerta, rede: Rede): (rs: seq<Saida>)
    ensures |rs| == |alvos|
    ensures forall i :: 0 <= i < |alvos| ==> rs[i] == Enviar(alvos[i], a, rede)
  {
    seq(|alvos|, i requires 0 <= i < |alvos| => Enviar(alvos[i], a, rede))
  }

  /** All the effects of a list of calls, in order. */
  function Eventos(rs: seq<Saida>): seq<Evento> {
    if |rs| == 0 then [] else rs[0].eventos + Eventos(rs[1..])
  }

  /** The index of the first call that failed, or `|rs|` if none did. */
  function PrimeiraFalha(rs: seq<Saida>): (k: nat)
    ensures k <= |rs|
    ensures forall j :: 0 <= j < k ==> rs[j].falha.None?
    ensures k < |rs| ==> rs[k].falha.Some?
  {
    if |rs| == 0 then 0
    else if rs[0].falha.Some? then 0
    else 1 + PrimeiraFalha(rs[1..])
  }

  /** The composite calls its targets one by one in order, up to and
      including the first that throws; its effects are theirs concatenated,
      and it throws what that target threw. */
  lemma {:induction false} EnviarTodosEmOrdem(alvos: seq<Notificador>, a: Alerta, rede: Rede)
    ensures var rs := Resultados(alvos, a, rede);
      var k := PrimeiraFalha(rs);
      EnviarTodos(alvos, a, rede) ==
        if k < |rs| then Saida(Eventos(rs[..k + 1]), rs[k].falha) else Saida(Eventos(rs), None)
    decreases alvos
  {
    if |alvos| > 0 {
      var rs := Resultados(alvos, a, rede);
      var rs' := Resultados(alvos[1..], a, rede);
      assert rs' == rs[1..];
      EnviarTodosEmOrdem(alvos[1..], a, rede);
      if rs[0].falha.Some? {
        assert Eventos(rs[..1]) == rs[0].eventos + Eventos([]);
      } else {
        var k' := PrimeiraFalha(rs');
        if k' < |rs'| {
          assert rs[..k' + 2][1..] == rs'[..k' + 1];
        }
      }
    }
  }

  /** When no target throws, every target runs, in order, and nothing escapes. */
  lemma CompositeSemFalhas(alvos: seq<Notificador>, a: Alerta, rede: Rede)
    requires forall i :: 0 <= i < |alvos| ==> Enviar(alvos[i], a, rede).falha.None?
    ensures Enviar(Composite(alvos), a, rede) == Saida(Eventos(Resultados(alvos, a, rede)), None)
  {
    EnviarTodosEmOrdem(alvos, a, rede);
  }

  /** A target that throws, after targets that did not, ends the dispatch:
      the composite throws the same, and targets after it are never called,
      whatever they are. */
  lemma CompositeParaNaFalha(alvos: seq<Notificador>, i: nat, depois: seq<Notificador>, a: Alerta, rede: Rede)
    requires i < |alvos|
    requires forall j :: 0 <= j < i ==> Enviar(alvos[j], a, rede).falha.None?
    requires Enviar(alvos[i], a, rede).falha.Some?
    ensures Enviar(Composite(alvos), a, rede).falha == Enviar(alvos[i], a, rede).falha
    ensures Enviar(Composite(alvos), a, rede).eventos == Eventos(Resultados(alvos[..i + 1], a, rede))
    ensures Enviar(Composite(alvos[..i + 1] + depois), a, rede) == Enviar(Composite(alvos), a, rede)
  {
    var rs := Resultados(alvos, a, rede);
    EnviarTodosEmOrdem(alvos, a, rede);
    assert PrimeiraFalha(rs) == i by { PrimeiraFalhaEh(rs, i); }
    assert Resultados(alvos[..i + 1], a, rede) == rs[..i + 1];
    var outros := alvos[..i + 1] + depois;
    var os := Resultados(outros, a, rede);
    EnviarTodosEmOrdem(outros, a, rede);
    assert os[..i + 1] == rs[..i + 1];
    assert PrimeiraFalha(os) == i by { PrimeiraFalhaEh(os, i); }
  }

  /** The first failure is the one every earlier call avoided. */
  lemma {:induction false} PrimeiraFalhaEh(rs: seq<Saida>, i: nat)
    requires i < |rs|
    requires forall j :: 0 <= j < i ==> rs[j].falha.None?
    requires rs[i].falha.Some?
    ensures PrimeiraFalha(rs) == i
  {
    if i > 0 {
      PrimeiraFalhaEh(rs[1..], i - 1);
    }
  }

  /** Consoles never throw, and neither does a composite of them. */
  lemma {:induction false} SoConsolesNaoFalham(n: Notificador, a: Alerta, rede: Rede)
    requires SoConsoles(n)
    ensures Enviar(n, a, rede).falha.None?
    ensures NumErros(Enviar(n, a, rede).eventos) == 0
    decreases n
  {
    if n.Composite? {
      forall i | 0 <= i < |n.alvos|
        ensures Enviar(n.alvos[i], a, rede).falha.None?
        ensures NumErros(Enviar(n.alvos[i], a, rede).eventos) == 0
      {
        SoConsolesNaoFalham(n.alvos[i], a, rede);
      }
      CompositeSemFalhas(n.alvos, a, rede);
      NumErrosEventos(Resultados(n.alvos, a, rede));
    }
  }

  predicate SoConsoles(n: Notificador)
    decreases n
  {
    match n
    case Console => true
    case Telegram(_) => false
    case Composite(alvos) => forall i :: 0 <= i < |alvos| ==> SoConsoles(alvos[i])
  }

  lemma {:induction false} NumErrosEventos(rs: seq<Saida>)
    requires forall i :: 0 <= i < |rs| ==> NumErros(rs[i].eventos) == 0
    ensures NumErros(Eventos(rs)) == 0
  {
    if |rs| > 0 {
      NumErrosEventos(rs[1..]);
      NumErrosAppend(rs[0].eventos, Eventos(rs[1..]));
    }
  }

  lemma {:induction false} NumErrosAppend(xs: seq<Evento>, ys: seq<Evento>)
    ensures NumErros(xs + ys) == NumErros(xs) + NumErros(ys)
  {
    if |xs| > 0 {
      assert (xs + ys)[1..] == xs[1..] + ys;
      NumErrosAppend(xs[1..], ys);
    } else {
      assert xs + ys == ys;
    }
  }
}
