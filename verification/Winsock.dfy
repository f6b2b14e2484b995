/**
 What the socket calls of the library answer.
 */
module Winsock {

  /** WSARecv and WSASend: pending, or one of the hard errors that checkAndHandleIoError knows. */
  datatype Posting = Posted | HardError
}
