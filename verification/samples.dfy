/**
  A sample is one merged mapping from metric key to numeric value. Metric
  values are Python floats or ints in the profiler; they are modelled as exact
  `real`s, since the manager's only arithmetic on them is adding one to the
  error counter.
 */
module Samples {

  type Key = string

  type Value = real

  type Sample = map<Key, Value>

  /** The key under which the manager counts the collectors that raised in one tick. */
  const ErrorsKey: Key := "collector_errors"

  /** The key collectors use for their wall-clock reading; the manager never writes it. */
  const TimestampKey: Key := "timestamp"
}
