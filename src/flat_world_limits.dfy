/** The body limits FlatWorld publishes and the body factories check
    against. Single-precision literals are taken at their decimal values. */
module FlatWorldLimits {

  /** FlatWorld.MinBodySize, 0.01 * 0.01. */
  const MinBodySize: real := 0.01 * 0.01

  /** FlatWorld.MaxBodySize, 64 * 64. */
  const MaxBodySize: real := 64.0 * 64.0

  /** FlatWorld.MinDensity and FlatWorld.MaxDensity. */
  const MinDensity: real := 0.2
  const MaxDensity: real := 21.4

  /** The limits as the factories' error messages print them. */
  const SizeMessage: string := "Minimum body size = 0.0001, Maximum body size = 4096"
  const DensityMessage: string := "Minimum body density = 0.2, Maximum density size = 21.4"
}
