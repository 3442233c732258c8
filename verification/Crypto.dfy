/** The cryptographic session of one exchange: it seals the request, then at most one
    completion, each under its own sequence number. */
module Crypto {
  import opened Wrappers
  import opened Protocol

  datatype SessionState = Ready | RequestSealed | CompletionSealed

  class Session {
    const context: Context
    const rotationKey: Option<string>
    var sequence: nat
    var state: SessionState

    constructor (context: Context, rotationKey: Option<string>)
      ensures this.context == context && this.rotationKey == rotationKey
      ensures state == Ready && Valid()
    {
      this.context := context;
      this.rotationKey := rotationKey;
      sequence := 0;
      state := Ready;
    }

    /** The sequence number counts the messages sealed so far. */
    predicate Valid()
      reads this
    {
      sequence == match state case Ready => 0 case RequestSealed => 1 case CompletionSealed => 2
    }

    method SealRequest(contents: string) returns (r: Result<Payload, CryptoError>)
      requires Valid()
      modifies this
      ensures Valid()
      ensures old(state) == Ready ==>
        && state == RequestSealed
        && r == Ok(SealedRequest(Ciphertext(context, 0, Application(contents)), rotationKey))
      ensures old(state) != Ready ==> r == Err(MessageOrder) && state == old(state)
    {
      if state != Ready {
        return Err(MessageOrder);
      }
      var ciphertext := Ciphertext(context, sequence, Application(contents));
      sequence := sequence + 1;
      state := RequestSealed;
      return Ok(SealedRequest(ciphertext, rotationKey));
    }

    method SealCompletion(outcome: Outcome) returns (r: Result<Payload, CryptoError>)
      requires Valid()
      modifies this
      ensures Valid()
      ensures old(state) == RequestSealed ==>
        && state == CompletionSealed
        && r == Ok(SealedCompletion(Ciphertext(context, 1, Completed(outcome))))
      ensures old(state) != RequestSealed ==> r == Err(MessageOrder) && state == old(state)
    {
      if state != RequestSealed {
        return Err(MessageOrder);
      }
      var ciphertext := Ciphertext(context, sequence, Completed(outcome));
      sequence := sequence + 1;
      state := CompletionSealed;
      return Ok(SealedCompletion(ciphertext));
    }

    /** A response opens only if it was sealed for this very session. */
    function OpenResponse(response: Response): (r: Result<Reply, CryptoError>)
      ensures r.Ok? <==> response == Response(context, response.reply)
      ensures r.Ok? ==> r.value == response.reply
      ensures r.Err? ==> r.error == DecryptionFailed
    {
      if response.context == context then Ok(response.reply) else Err(DecryptionFailed)
    }
  }
}
