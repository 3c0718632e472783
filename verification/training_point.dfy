/** The immutable (input, expected output) pair of the network engine
    (Components/TrainingPoint.cs). */
module Training {
  import opened Matrices

  datatype TrainingPoint = TrainingPoint(input: Vector, expectedOutput: Vector)

  /** The constructor: both arrays are copied element by element into storage
      of their own; no relation between the two lengths is imposed. With value
      semantics no later change to the caller's arrays can reach the point. */
  function NewTrainingPoint(input: Vector, expectedOutput: Vector): (p: TrainingPoint)
    ensures |p.input| == |input| && forall i :: 0 <= i < |input| ==> p.input[i] == input[i]
    ensures |p.expectedOutput| == |expectedOutput|
    ensures forall i :: 0 <= i < |expectedOutput| ==> p.expectedOutput[i] == expectedOutput[i]
  {
    TrainingPoint(seq(|input|, i requires 0 <= i < |input| => input[i]),
                  seq(|expectedOutput|, i requires 0 <= i < |expectedOutput| => expectedOutput[i]))
  }
}
