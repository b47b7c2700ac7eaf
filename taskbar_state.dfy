/**
 * The two flags the taskbar keeps (the globals in_taskbar and showing_taskbar of
 * windowlab.h): whether the pointer is inside the taskbar, and whether the taskbar is
 * shown (it is hidden while a fullscreen client has the screen and the pointer is
 * elsewhere).
 */
module TaskbarState {

  class TaskbarFlags {
    var inside: bool
    var showing: bool

    /** At start-up the pointer is not in the taskbar and the taskbar is shown. */
    constructor ()
      ensures !inside && showing
    {
      inside := false;
      showing := true;
    }
  }
}
