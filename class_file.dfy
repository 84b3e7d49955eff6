/** The owning class file. Members keep only a back-reference to it; its
    contents (constant pool, member lists, class attributes) are not part of
    this model, so the class has no state of its own. */
module ClassFiles {

  class ClassFile {
    constructor ()
    {
    }
  }
}
