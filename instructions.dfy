/** The eight instruction characters; every other byte is a no-op. */
module Instructions {
  import opened Tape

  const InstMoveRight: byte := '>' as byte
  const InstMoveLeft: byte := '<' as byte
  const InstIncrement: byte := '+' as byte
  const InstDecrement: byte := '-' as byte
  const InstOutput: byte := '.' as byte
  const InstInput: byte := ',' as byte
  const InstLoopStart: byte := '[' as byte
  const InstLoopEnd: byte := ']' as byte
}
