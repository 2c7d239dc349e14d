/** The ways an operation of the engine or of the batch harness can stop
    early, and the result type that carries them. */
module Outcomes {

  datatype Error =
    | SampleSizeInvalid // random.sample: sample larger than the pool or negative (ValueError)
    | ZeroBreeders      // int(POP_SIZE / NUM_OF_BREEDERS) with no breeders (ZeroDivisionError)
    | ZeroStep          // range(init, final, 0) (ValueError)
    | OutOfFuel         // the model's generation budget ran out before convergence

  datatype Result<T> = Ok(value: T) | Err(error: Error)
}
