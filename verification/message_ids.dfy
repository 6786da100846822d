/** The ids by which requests and their responses are known. */
module MessageIds {

  /** The ids handed out by a connection never wrap around here. */
  type Id = nat
}
