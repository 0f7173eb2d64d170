/**
 * The one component of the game that the model needs: a grid position.
 * The source stores both coordinates as 32-bit signed integers. They are
 * plain ints here: in a playable world every player stays strictly inside
 * the 80 x 50 grid, far from the 32-bit limits.
 */
module Components {

  datatype Position = Position(x: int, y: int)
}
