/** Small wrapper types shared by every module of the model. */
module Common {

  /** Python's `None`-or-value. */
  datatype Option<+T> = None | Some(value: T)

  /**
   * The outcome of a call into a collaborator this model cannot see
   * (browser, cookie decoder, auth updater, machine-ID resetter, account
   * manager): it either returns a value or raises an exception.
   */
  datatype Call<+T> = Returns(value: T) | Raises
}
