/** The record types every package of the repository shares. */
module Records {
  type Byte = x: int | 0 <= x < 256

  // An instant as an offset from Go's zero `time.Time`, which is therefore 0.
  type Time = int

  datatype Option<+T> = None | Some(value: T)

  /** An event as it is stored; both dates are nanoseconds since 1970. */
  datatype Record = Record(
    eventType: int, deviceID: string, birthDate: int, deathDate: int,
    data: seq<Byte>, nonce: seq<Byte>, alg: string, kid: string, rowID: string)

  datatype RecordWithTime = RecordWithTime(record: Record, beginning: Time)

  predicate IsZero(t: Time) { t == 0 }
}
