/**
 * `python_files/config.py`: the command-line settings of the simulated chain,
 * kept as the strings the source stores.
 */
module Settings {

  const LogLevel := "\"*:DEBUG,process:TRACE\""
  const NumValidatorsPerShard := "10"
  const NumValidatorsMeta := "10"
  const NumWaitingValidatorsPerShard := "6"
  const NumWaitingValidatorsMeta := "6"
  const RoundsPerEpoch := "50"
}
