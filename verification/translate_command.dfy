/**
  The translate command end to end: the interpreter, the text to translate
  (the query, or a fetched message that must not be blank), the provider
  call, and the one message the command sends back. The channel history and
  the translation provider are parameters; `None` from either stands for a
  thrown error, which the command catches.
 */
module TranslateCommand {
  import opened Wrappers
  import opened AsciiCase
  import opened Whitespace
  import opened LanguageRegistry
  import opened Interpreter
  import opened Formatter

  /** What the provider is asked: translate `text` from `from` to `to` (both lower-cased, `from` possibly "auto"). */
  datatype Call = Call(text: string, from: string, to: string)

  const CannotTranslate := "Sorry, I can't translate that message."
  const SomethingWentWrong := "Yikes, something went wrong. Try running `synus translate` again."

  /**
    `translateMessage` before the provider call: fetched content that is
    empty or white space only stops the command, so no provider call is made.
   */
  function GuardContent(content: string): (r: Result<string, Error>)
    ensures r.Failure? <==> AllWhitespace(content)
    ensures r.Failure? ==> r.error == EmptyContent
    ensures r.Success? ==> r.value == content && content != []
  {
    BlankIffAllWhitespace(content);
    if IsBlank(content) then Failure(EmptyContent) else Success(content)
  }

  /**
    Everything up to the provider call: interpret the arguments, then take the
    query verbatim or fetch the message `index` places back and guard it.
   */
  function PrepareCall(reg: Registry, a: Args, fetch: nat -> Option<string>): (r: Result<Call, Error>)
    ensures Interpret(reg, a).Failure? ==> r == Failure(Interpret(reg, a).error)
    ensures r.Success? ==> Interpret(reg, a).Success?
                           && r.value.from == Interpret(reg, a).value.from
                           && r.value.to == Interpret(reg, a).value.to
                           && r.value.text != ""
    // a query is sent as typed, without trimming and without looking at the channel
    ensures Interpret(reg, a).Success? && a.query != "" ==> r.Success? && r.value.text == a.query
    ensures Interpret(reg, a).Success? && a.query == "" ==>
              var index := EffectiveIndex(a);
              index >= 0 &&
              match fetch(index)
              case None => r == Failure(TranslationFailed)
              case Some(content) =>
                if AllWhitespace(content) then r == Failure(EmptyContent) else r.Success? && r.value.text == content
  {
    match Interpret(reg, a)
    case Failure(e) => Failure(e)
    case Success(req) =>
      match req.source
      case UseQuery(text) => Success(Call(text, req.from, req.to))
      case UseLookback(index) =>
        match fetch(index)
        case None => Failure(TranslationFailed)
        case Some(content) =>
          match GuardContent(content)
          case Failure(e) => Failure(e)
          case Success(text) => Success(Call(text, req.from, req.to))
  }

  /** The message the command sends when it stops with an error. */
  function ErrorReply(e: Error): string
  {
    match e
    case InvalidSource(code) => code + " is not a valid language code."
    case InvalidTarget(code) => code + " is not a valid ISO language code."
    case BadMessageTarget(_) => CannotTranslate
    case EmptyContent => CannotTranslate
    case TranslationFailed => SomethingWentWrong
  }

  /** The reply once the provider is called: "Yikes" if it throws, the formatted translation otherwise. */
  function Translated(reg: Registry, call: Call, provider: Call -> Option<Translation>,
                      monospace: string -> string): string
  {
    match provider(call)
    case None => ErrorReply(TranslationFailed)
    case Some(t) => Format(reg, call.from, call.to, t, monospace)
  }

  /**
    `Translate.exec`: the one message sent to the channel for an invocation,
    stated in terms of the typed arguments, the channel and the provider.
   */
  function Run(reg: Registry, a: Args, fetch: nat -> Option<string>, provider: Call -> Option<Translation>,
               monospace: string -> string): (reply: string)
    // the source code is checked first and reported as typed, upper-cased
    ensures !SourceAccepted(reg, Lower(a.from)) ==> reply == Upper(a.from) + " is not a valid language code."
    ensures SourceAccepted(reg, Lower(a.from)) && !Known(reg, Lower(a.to))
            ==> reply == Upper(a.to) + " is not a valid ISO language code."
    ensures SourceAccepted(reg, Lower(a.from)) && Known(reg, Lower(a.to)) && a.query == "" && a.message < 0
            ==> reply == CannotTranslate
    // without a query the message at the effective index is fetched; a throw or blank content ends it
    ensures SourceAccepted(reg, Lower(a.from)) && Known(reg, Lower(a.to)) && a.query == "" && a.message >= 0
            ==> var index := if a.message == 0 then 1 else a.message;
                match fetch(index)
                case None => reply == SomethingWentWrong
                case Some(content) =>
                  if AllWhitespace(content) then reply == CannotTranslate
                  else reply == Translated(reg, Call(content, Lower(a.from), Lower(a.to)), provider, monospace)
    // a query is translated as typed, whatever the index
    ensures SourceAccepted(reg, Lower(a.from)) && Known(reg, Lower(a.to)) && a.query != ""
            ==> reply == Translated(reg, Call(a.query, Lower(a.from), Lower(a.to)), provider, monospace)
  {
    match PrepareCall(reg, a, fetch)
    case Failure(e) => ErrorReply(e)
    case Success(call) =>
      Translated(reg, call, provider, monospace)
  }

  /** When both codes are invalid the reply names the source code, upper-cased as typed. */
  lemma BothCodesInvalid(reg: Registry, a: Args, fetch: nat -> Option<string>,
                         provider: Call -> Option<Translation>, monospace: string -> string)
    requires !SourceAccepted(reg, Lower(a.from)) && !Known(reg, Lower(a.to))
    ensures Run(reg, a, fetch, provider, monospace) == Upper(a.from) + " is not a valid language code."
  {
  }

  /**
    Blank fetched content is refused with the same words as a bad index, and
    the reply is the same whatever the provider would have answered: it is
    never consulted.
   */
  lemma BlankContentNeverTranslated(reg: Registry, a: Args, fetch: nat -> Option<string>,
                                                       p1: Call -> Option<Translation>,
                                                       p2: Call -> Option<Translation>,
                                                       monospace: string -> string)
    requires Interpret(reg, a).Success? && a.query == ""
    requires fetch(EffectiveIndex(a)).Some? && AllWhitespace(fetch(EffectiveIndex(a)).value)
    ensures Run(reg, a, fetch, p1, monospace) == Run(reg, a, fetch, p2, monospace) == CannotTranslate
  {
  }

  /** Whenever the invocation stops before the provider call, the provider cannot influence the reply. */
  lemma ProviderOnlyAfterChecks(reg: Registry, a: Args, fetch: nat -> Option<string>,
                                p1: Call -> Option<Translation>, p2: Call -> Option<Translation>,
                                monospace: string -> string)
    requires PrepareCall(reg, a, fetch).Failure?
    ensures Run(reg, a, fetch, p1, monospace) == Run(reg, a, fetch, p2, monospace)
  {
  }

  /** A query is used whatever the message index says, and the channel is never read for it. */
  lemma QueryIgnoresIndexAndChannel(reg: Registry, a: Args, m: int,
                                                       f1: nat -> Option<string>, f2: nat -> Option<string>)
    requires a.query != ""
    ensures PrepareCall(reg, a, f1) == PrepareCall(reg, a.(message := m), f2)
  {
  }

  /** An invalid-source reply and an invalid-target reply can never be confused, whatever the codes. */
  lemma CodeRepliesDistinct(c: string, d: string)
    ensures ErrorReply(InvalidSource(c)) != ErrorReply(InvalidTarget(d))
  {
    var s := ErrorReply(InvalidSource(c));
    var t := ErrorReply(InvalidTarget(d));
    // both end in " language code.", before which one says "valid" and the other "ISO"
    assert s[|s| - 16] == 'd';
    assert t[|t| - 16] == 'O';
  }
}
