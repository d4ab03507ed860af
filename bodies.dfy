/**
 * The body record shared by the simulator and the tree (graviton/body).
 * graviton/body itself is not part of this model: a body here is the record
 * it produces, with the fields the simulator and the tree read and write.
 * The display colour is irrelevant to the physics and is omitted.
 */
module Bodies {
  datatype Body = Body(x: real, y: real, velX: real, velY: real, mass: real, radius: real)
}
