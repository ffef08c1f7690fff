/**
  The argument interpreter of the translate command (`Translate.exec` before
  any network call): case normalisation of the two codes, their validation in
  a fixed order, the default lookback index, and the choice between the query
  and a message lookback.
 */
module Interpreter {
  import opened Wrappers
  import opened AsciiCase
  import opened LanguageRegistry

  /** The source code that asks the provider to detect the language. */
  const Auto := "auto"

  /**
    Arguments as the command framework hands them over. An empty `query`
    stands for an absent one (both are falsy in JavaScript); `message` is the
    `-m` option, 0 when unset.
   */
  datatype Args = Args(from: string, to: string, query: string, message: int)

  /** Where the text to translate comes from. */
  datatype Source = UseQuery(text: string) | UseLookback(index: nat)

  /** A request that passed every check, with both codes lower-cased. */
  datatype Request = Request(from: string, to: string, source: Source)

  /**
    Every way a translate invocation can end without a translation. `Interpret`
    produces the first three; `EmptyContent` and `TranslationFailed` arise only
    after it, in `TranslateCommand`.
   */
  datatype Error =
    | InvalidSource(code: string)   // `from` is neither "auto" nor a known code; code shown upper-cased
    | InvalidTarget(code: string)   // `to` is not a known code; code shown upper-cased
    | BadMessageTarget(index: int)  // no query and a lookback index below 1
    | EmptyContent                  // the fetched message is empty or white space only
    | TranslationFailed             // fetching the message or calling the provider threw

  predicate SourceAccepted(reg: Registry, from: string)
  {
    from == Auto || Known(reg, from)
  }

  /** What every request the interpreter produces satisfies. */
  predicate ValidRequest(reg: Registry, req: Request)
  {
    && SourceAccepted(reg, req.from)
    && Known(reg, req.to)
    && match req.source
       case UseQuery(text) => text != ""
       case UseLookback(index) => index >= 1
  }

  /** The lookback index after the default: an unset index without a query means the previous message. */
  function EffectiveIndex(a: Args): int
  {
    if a.message == 0 && a.query == "" then 1 else a.message
  }

  /**
    `Translate.exec` up to the provider call. The checks run in `exec`'s
    order: source code, target code, lookback index; the first failing one
    decides the error.
   */
  function Interpret(reg: Registry, a: Args): (r: Result<Request, Error>)
    // the source code is checked first, case-insensitively, and reported upper-cased
    ensures !SourceAccepted(reg, Lower(a.from)) ==> r == Failure(InvalidSource(Upper(a.from)))
    // the target code is checked next; "auto" is no exception here
    ensures SourceAccepted(reg, Lower(a.from)) && !Known(reg, Lower(a.to))
            ==> r == Failure(InvalidTarget(Upper(a.to)))
    // without a query only a negative index is refused: 0 was defaulted to 1
    ensures SourceAccepted(reg, Lower(a.from)) && Known(reg, Lower(a.to)) && a.query == "" && a.message < 0
            ==> r == Failure(BadMessageTarget(a.message))
    ensures r.Success? <==>
              SourceAccepted(reg, Lower(a.from)) && Known(reg, Lower(a.to)) && (a.query != "" || a.message >= 0)
    ensures r.Success? ==> ValidRequest(reg, r.value) && r.value.from == Lower(a.from) && r.value.to == Lower(a.to)
    // a query wins over any index, even a negative one, and is used verbatim
    ensures r.Success? && a.query != "" ==> r.value.source == UseQuery(a.query)
    ensures r.Success? && a.query == "" ==> r.value.source == UseLookback(if a.message == 0 then 1 else a.message)
  {
    var from := Lower(a.from);
    var to := Lower(a.to);
    UpperOfLower(a.from);
    UpperOfLower(a.to);
    if !SourceAccepted(reg, from) then
      Failure(InvalidSource(Upper(from)))
    else if !Known(reg, to) then
      Failure(InvalidTarget(Upper(to)))
    else
      var index := EffectiveIndex(a);
      if index < 1 && a.query == "" then
        Failure(BadMessageTarget(index))
      else if a.query != "" then
        Success(Request(from, to, UseQuery(a.query)))
      else
        Success(Request(from, to, UseLookback(index)))
  }

  /** The arguments a user could type to obtain `req`. */
  function Unparse(req: Request): Args
  {
    match req.source
    case UseQuery(text) => Args(req.from, req.to, text, 0)
    case UseLookback(index) => Args(req.from, req.to, "", index)
  }

  /** Every valid request with lower-case codes is produced by the interpreter, from its own unparsing. */
  lemma InterpretUnparse(reg: Registry, req: Request)
    requires ValidRequest(reg, req)
    requires Lower(req.from) == req.from && Lower(req.to) == req.to
    ensures Interpret(reg, Unparse(req)) == Success(req)
  {
  }

  /** Interpreting the unparsed result of an interpretation gives the same request back. */
  lemma UnparseInterpret(reg: Registry, a: Args)
    requires Interpret(reg, a).Success?
    ensures Interpret(reg, Unparse(Interpret(reg, a).value)) == Interpret(reg, a)
  {
    var req := Interpret(reg, a).value;
    LowerIdempotent(a.from);
    LowerIdempotent(a.to);
    InterpretUnparse(reg, req);
  }

  /** The codes are case-insensitive on input: arguments that differ only in the case of the codes are interpreted alike. */
  lemma InterpretIgnoresCase(reg: Registry, a: Args, b: Args)
    requires EqualIgnoringCase(a.from, b.from) && EqualIgnoringCase(a.to, b.to)
    requires a.query == b.query && a.message == b.message
    ensures Interpret(reg, a) == Interpret(reg, b)
  {
    LowerEqualIff(a.from, b.from);
    LowerEqualIff(a.to, b.to);
    LowerOfUpper(a.from);
    LowerOfUpper(b.from);
    LowerOfUpper(a.to);
    LowerOfUpper(b.to);
    UpperOfLower(a.from);
    UpperOfLower(b.from);
    UpperOfLower(a.to);
    UpperOfLower(b.to);
  }

  /** "auto" is accepted as a source only: as a target it must be a registry entry like any code. */
  lemma AutoTargetRefused(reg: Registry, a: Args)
    requires SourceAccepted(reg, Lower(a.from))
    requires Lower(a.to) == Auto && Auto !in reg
    ensures Interpret(reg, a) == Failure(InvalidTarget("AUTO"))
  {
    UpperOfLower(a.to);
    var up := Upper(Auto);
    assert up[0] == 'A' && up[1] == 'U' && up[2] == 'T' && up[3] == 'O';
    assert up == "AUTO";
  }
}
