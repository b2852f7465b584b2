/** What the robot can see in one direction (the `Cell` enum of src/maze.rs and of the controller). */
module Cells {

  datatype Cell = Open | Finish | Wall
}
