/** The logical navigation commands and the keys bound to them. Decoding raw
    terminal input into a `Key` happens before this table. */
module Keys {

  import opened Options

  datatype Command = MoveDown | MoveUp | MoveRight | MoveLeft | MoveHome | MoveEnd | Confirm

  /** An already-decoded key press: a printable character or a named key. */
  datatype Key =
    | Letter(ch: char)
    | DownArrow | UpArrow | RightArrow | LeftArrow
    | HomeKey | EndKey | Enter

  /** The key-to-command table; unrecognised keys give no command. */
  function Decode(k: Key): (r: Option<Command>)
    ensures k.Letter? && k.ch !in "jklh^$" ==> r == None
  {
    match k
    case Letter(c) =>
      if c == 'j' then Some(MoveDown)
      else if c == 'k' then Some(MoveUp)
      else if c == 'l' then Some(MoveRight)
      else if c == 'h' then Some(MoveLeft)
      else if c == '^' then Some(MoveHome)
      else if c == '$' then Some(MoveEnd)
      else None
    case DownArrow => Some(MoveDown)
    case UpArrow => Some(MoveUp)
    case RightArrow => Some(MoveRight)
    case LeftArrow => Some(MoveLeft)
    case HomeKey => Some(MoveHome)
    case EndKey => Some(MoveEnd)
    case Enter => Some(Confirm)
  }

  /** The keys accepted for each command: a vi-style letter and a named key. */
  function Bindings(cmd: Command): set<Key>
  {
    match cmd
    case MoveDown => {Letter('j'), DownArrow}
    case MoveUp => {Letter('k'), UpArrow}
    case MoveRight => {Letter('l'), RightArrow}
    case MoveLeft => {Letter('h'), LeftArrow}
    case MoveHome => {Letter('^'), HomeKey}
    case MoveEnd => {Letter('$'), EndKey}
    case Confirm => {Enter}
  }

  /** A key decodes to a command exactly when it is one of that command's bindings. */
  lemma DecodeMatchesBindings(k: Key, cmd: Command)
    ensures Decode(k) == Some(cmd) <==> k in Bindings(cmd)
  {
  }
}
