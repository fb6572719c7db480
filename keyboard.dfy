/** Key events as the handlers read them. */
module Keyboard {
  datatype KeyEvent = KeyEvent(key: string, shiftKey: bool, isComposing: bool)

  /** `e.key === 'Enter' && !e.shiftKey && !e.nativeEvent.isComposing`: Enter that is not a line break or an IME commit. */
  predicate SubmitsOnEnter(e: KeyEvent) {
    e.key == "Enter" && !e.shiftKey && !e.isComposing
  }

  predicate IsEscape(e: KeyEvent) {
    e.key == "Escape"
  }
}
