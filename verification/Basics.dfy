/** Notions that several components share. */
module Basics {

  datatype Option<T> = None | Some(value: T)

  datatype GrainId = GrainId(grainType: string, grainKey: string)

  /** Nanoseconds counted from Go's zero `time.Time`, so that `ZERO_TIME` is the value
      for which `IsZero` answers true. */
  type Time = int
  const ZERO_TIME: Time := 0
}
