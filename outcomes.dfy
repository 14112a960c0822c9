/** The exceptions the waveform code raises, and the values that carry them. */
module Outcomes {

  datatype Option<+T> = None | Some(value: T)

  /** One constructor per exception the modelled code can raise. */
  datatype Error =
    | IndexError           // an index outside an axis, or an empty component
    | KeyError             // a threshold missing from the threshold dictionary
    | AssertionError       // an `assert` of the source that fails
    | RuntimeError         // `_get_padded` asked to pad on both sides
    | AttributeError       // `n_channels_traces` read before any trace was set
    | NotImplementedError  // a loader indexed with a slice
    | DeadChannel(channel: int)          // a component on a channel outside the topology
    | InvalidTime(timeO: int, ns: int)   // a ValueError: time outside the trace
    | SamplesNotSpecified                // a ValueError: `n_samples` missing

  datatype Result<+T> = Ok(value: T) | Err(error: Error)
}
