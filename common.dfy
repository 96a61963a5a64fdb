/** Constants of vimpy/common.py and the exception kinds the core can raise. */
module Common {

  /** Directory the editor's listening sockets are created in. */
  const NvimSocketFolder: string := "/tmp/"

  /** Leading part of every socket file name. */
  const NvimSocketFileNamePrefix: string := "nvim-socket"

  /** The exceptions that surface from the core, by kind. */
  datatype Exception =
    | CommandAlreadyRegistered  // cmd_mgr.add on a name already present
    | CommandNotRegistered      // cmd_mgr.show / exec on an absent name
    | TypeError                 // a handler called with the wrong number of arguments
    | IndexError                // `search_args[0]` on an empty argument list
    | UnboundLocalError         // the socket scan found nothing, so `socket_path` was never bound
    | EditorError               // the editor connection raised while running a command
}
