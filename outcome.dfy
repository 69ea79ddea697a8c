/** Failure kinds of the analysis core and the result type that carries them.
    Each error stands for the Python exception the original code would raise. */
module Outcome {

  datatype Error =
    | MissingChannel              // IndexError: a 2-D sample array without a second column
    | DivisionByZero              // ZeroDivisionError: a sample rate of zero
    | EmptyTransform              // ValueError from numpy's FFT on zero samples
    | CriticalFrequencyOutOfRange // ValueError from the Butterworth design: not 0 < low < high < 1
    | SignalTooShort              // ValueError from zero-phase filtering: input not longer than the padding
    | UnknownMode                 // KeyError: a band name missing from the band table

  datatype Result<T> = Success(value: T) | Failure(error: Error)
}
