/** `FlashcardActionService`: logging what the user did with a generated
    candidate. The session lookup and the `log_flashcard_action` call are
    parameters. */
module FlashcardAction {
  import opened Common
  import opened Types

  datatype ActionType = Accepted | Edited | Rejected

  /** `LogFlashcardActionCommand` */
  datatype ActionCommand = ActionCommand(actionType: ActionType, generatedFlashcard: Option<GeneratedCard>)

  /** The arguments of the `log_flashcard_action` call. */
  datatype RpcArgs = RpcArgs(sessionId: int, userId: string, actionType: ActionType, flashcardData: Option<GeneratedCard>)

  /** The row the call returns. */
  datatype LogRow = LogRow(logId: int, sessionId: int, flashcardId: Option<int>, actionType: ActionType, createdAt: string)

  /** `LogActionDTO` */
  datatype LogActionDTO = LogActionDTO(id: int, sessionId: int, flashcardId: Option<int>, actionType: ActionType, timestamp: string)

  const SessionNotFound: string := "Generation session not found or access denied"
  const InvalidSessionId: string := "Invalid session ID"
  const LogFailedPrefix: string := "Failed to log flashcard action: "

  /** `convertSessionIdToInteger`: `parseInt(s, 10)`, refused when it is
      `NaN` or not positive. */
  function ConvertSessionIdToInteger(sessionId: string): (r: Result<int>)
    ensures r.Ok? <==> ParseInt(sessionId).Some? && ParseInt(sessionId).value > 0
    ensures r.Ok? ==> r.value == ParseInt(sessionId).value && r.value > 0
    ensures r.Err? ==> r.message == InvalidSessionId
  {
    match ParseInt(sessionId)
    case None => Err(InvalidSessionId)
    case Some(n) => if n <= 0 then Err(InvalidSessionId) else Ok(n)
  }

  /** The decimal text of a positive id converts back to that id, also
      with trailing text that does not start with a digit. */
  lemma ConvertDecimal(n: nat, rest: string)
    requires n > 0
    requires rest == [] || !('0' <= rest[0] <= '9')
    ensures ConvertSessionIdToInteger(NatToString(n) + rest) == Ok(n)
  {
    ParseIntOfDigits(n, rest);
  }

  lemma TwelveDigits()
    ensures NatToString(12) + "abc" == "12abc"
  {
    assert NatToString(1) == "1";
    assert NatToString(12) == "12";
  }

  /** "12abc" is read as 12. */
  lemma TrailingTextIgnored()
    ensures ConvertSessionIdToInteger("12abc") == Ok(12)
  {
    ConvertDecimal(12, "abc");
    TwelveDigits();
  }

  /** "0", "-3" and "abc" are refused. */
  lemma ZeroAndTextRefused()
    ensures ConvertSessionIdToInteger("0") == Err(InvalidSessionId)
    ensures ConvertSessionIdToInteger("-3") == Err(InvalidSessionId)
    ensures ConvertSessionIdToInteger("abc") == Err(InvalidSessionId)
  {
    ParseIntZero();
    ParseIntMinusThree();
    ParseIntAbc();
  }

  lemma ParseIntMinusThree()
    ensures ParseInt("-3") == Some(-3)
  {
    TrimStartMinusThree();
    ThreeDigits();
    assert "-3"[1..] == "3";
  }

  lemma TrimStartMinusThree()
    ensures TrimStart("-3") == "-3"
  {
    assert !IsSpace('-');
  }

  lemma ThreeDigits()
    ensures DigitPrefixLength("3") == 1
    ensures "3"[..1] == "3" && DigitsValue("3") == 3
  {
    assert "3"[1..] == [];
    assert "3"[..0] == [];
  }

  lemma ParseIntZero()
    ensures ParseInt("0") == Some(0)
  {
    ParseIntOfDigits(0, "");
    ZeroDigits();
  }

  lemma ZeroDigits()
    ensures NatToString(0) + "" == "0"
  {
    assert NatToString(0) == "0";
  }

  lemma ParseIntAbc()
    ensures ParseInt("abc") == None
  {
    assert TrimStart("abc") == "abc";
    assert DigitPrefixLength("abc") == 0;
  }

  /** The flashcard data sent: none for a rejection. */
  function FlashcardData(command: ActionCommand): Option<GeneratedCard>
  {
    if command.actionType == Rejected then None else command.generatedFlashcard
  }

  function ToDto(row: LogRow): LogActionDTO
  {
    LogActionDTO(row.logId, row.sessionId, row.flashcardId, row.actionType, row.createdAt)
  }

  /** `logFlashcardAction`. `sessionFound` is whether the lookup of the
      session with that id and user returned a row; `rpc` answers the
      call with its row or its error message. */
  function LogFlashcardAction(sessionId: string, userId: string, command: ActionCommand,
                              sessionFound: bool, rpc: RpcArgs -> Result<LogRow>): Result<LogActionDTO>
  {
    if !sessionFound then Err(SessionNotFound)
    else match ConvertSessionIdToInteger(sessionId)
      case Err(message) => Err(message)
      case Ok(id) =>
        match rpc(RpcArgs(id, userId, command.actionType, FlashcardData(command)))
        case Err(message) => Err(LogFailedPrefix + message)
        case Ok(row) => Ok(ToDto(row))
  }

  /** The ownership check comes first: without the session every id,
      valid or not, gets the not-found error and no call is made. An id
      that does not convert is refused before the call. */
  lemma CheckBeforeCall(sessionId: string, userId: string, command: ActionCommand,
                        sessionFound: bool, rpc: RpcArgs -> Result<LogRow>, other: RpcArgs -> Result<LogRow>)
    ensures !sessionFound ==> LogFlashcardAction(sessionId, userId, command, sessionFound, rpc) == Err(SessionNotFound)
    ensures sessionFound && ConvertSessionIdToInteger(sessionId).Err? ==>
      LogFlashcardAction(sessionId, userId, command, sessionFound, rpc) == Err(InvalidSessionId)
    ensures !sessionFound || ConvertSessionIdToInteger(sessionId).Err? ==>
      LogFlashcardAction(sessionId, userId, command, sessionFound, rpc)
        == LogFlashcardAction(sessionId, userId, command, sessionFound, other)
  {
  }

  /** When the call is made, it gets the converted id, the user, the
      action and the card (none for a rejection); its error is reported
      with a prefix, its row is mapped field by field. */
  lemma CallAndMapping(sessionId: string, userId: string, command: ActionCommand, rpc: RpcArgs -> Result<LogRow>)
    requires ConvertSessionIdToInteger(sessionId).Ok?
    ensures var args := RpcArgs(ConvertSessionIdToInteger(sessionId).value, userId, command.actionType, FlashcardData(command));
      var r := LogFlashcardAction(sessionId, userId, command, true, rpc);
      && (command.actionType == Rejected ==> args.flashcardData.None?)
      && (command.actionType != Rejected ==> args.flashcardData == command.generatedFlashcard)
      && (rpc(args).Err? ==> r == Err(LogFailedPrefix + rpc(args).message))
      && (rpc(args).Ok? ==>
            r.Ok? && r.value.id == rpc(args).value.logId && r.value.sessionId == rpc(args).value.sessionId
            && r.value.flashcardId == rpc(args).value.flashcardId
            && r.value.actionType == rpc(args).value.actionType && r.value.timestamp == rpc(args).value.createdAt)
  {
  }
}
