/**
 * The domain entity of package `student`, as the database and transport
 * layers use it: a record of strings and timestamps.
 */
module Student {

  /**
   * A `time.Time`. The clock is not modelled: an instant is an opaque
   * count from Go's zero time, so that `ZeroTime` is the value an unset
   * `time.Time` holds and `IsZero` is Go's `Time.IsZero`.
   */
  datatype Time = Time(instant: int) {
    predicate IsZero() { instant == 0 }
  }

  const ZeroTime: Time := Time(0)

  /** `student.CustomeTime`, a wrapper that embeds a `time.Time`. */
  datatype CustomTime = CustomTime(time: Time) {
    predicate IsZero() { time.IsZero() }
  }

  datatype Student = Student(
    id: string,
    fname: string,
    lname: string,
    email: string,
    gender: string,
    dateOfBirth: CustomTime,
    address: string,
    createdBy: string,
    createdOn: Time,
    updatedBy: string,
    updatedOn: Time)

  /** `student.Student{}`: every string empty, every time zero. */
  const ZeroStudent: Student :=
    Student("", "", "", "", "", CustomTime(ZeroTime), "", "", ZeroTime, "", ZeroTime)
}
