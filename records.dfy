/** Types shared by the three stages of the bank-marketing pipeline. */
module Records {

  /** A cell that may be empty (pandas NaN) or hold a value. */
  datatype Option<T> = None | Some(value: T)

  /** One customer as the cleaned CSV and the database table hold it: the
      five columns age, balance, housing, loan, campaign, in that order. */
  datatype Customer = Customer(age: int, balance: real, housing: int, loan: int, campaign: int)

  /** A yes/no attribute coded as an integer. */
  predicate IsFlag(x: int) {
    x == 0 || x == 1
  }

  function Min(a: int, b: int): int {
    if a <= b then a else b
  }
}
