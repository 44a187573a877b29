/** Failure outcomes of the path length sampler.

    Every fatal log call of the component (an error-level message aborts the
    operation that raised it) becomes a `Fail` value here. `StreamEnded`
    stands for the end-of-stream exception of the byte stream;
    `StreamMismatch` exists only because the model's stream holds typed
    words, where a byte stream would reinterpret the bytes instead. */
module Outcomes {

  datatype Error =
    | UnknownModulation(name: string)   // construction: "modulation" is not one of the six names
    | UndefinedModulation               // correlation requested while no modulation is set
    | RejectsExceeded                   // a rejection sampler rejected more than one million candidates
    | StreamEnded                       // the stream holds fewer words than the layout needs
    | StreamMismatch                    // a word of the wrong kind where the layout expects another
    | UnknownOrdinal(ordinal: nat)      // a persisted modulation ordinal outside 0..5

  datatype Result<T> = Ok(value: T) | Fail(error: Error)
}
