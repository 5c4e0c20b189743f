/** The refusals of the callback inspector, one constructor per reason string. */
module CallbackReasons {
  datatype Reason =
    // capability
    | CallbackRva | CallbackStaticRva | CallbackStaticLayout
    // PE image
    | CallbackImageBound | CallbackFileSize | DosHeader | PeHeader | PeLayout | Pe32Plus
    | ExceptionDirectoryRequired | SectionFileRange | SectionRvaOverflow | OverlappingSectionRanges
    | RvaRange | UniqueSectionRange | BoundedPdata | ExactUniqueRuntimeFunction | CallbackSizeBound
    | UnwindAlignment | CallbackExecutableNonwritable
    // unwind information
    | UnwindVersion | UnwindPrologOrArrayBound | UnwindFrameRegister | UnwindCodeOffsetOrder
    | UnwindNonvolatileRegister | UnwindAllocationForm | UnwindFrameOperation | UnwindNonvolatileXmm
    | UnsupportedUnwindOperation | UnwindOperationSlotBound | UnwindAllocationSize | UnwindSaveOffset
    | UnwindFrameDefinition
    // instructions
    | PrefixLengthBound | TruncatedPrefix | TruncatedOpcode | TruncatedTwoByteOpcode
    | NonNopDuplicateOrSegmentPrefix | UnsupportedPushSizePrefix | UnknownOpcode(at: int)
    | TruncatedModrm | ForbiddenOpcodeExtension | LeaMemoryRequired | TruncatedSib
    | TruncatedRipDisplacement | UnsupportedLockForm | UnsupportedRepeatPrefix | MmxForbidden
    | TruncatedInstruction | PrefixedBranchRefused | InstructionLength
    // inspection
    | StaticWritableNonexecutable | NonoverlappingNamedStatics | InstructionCountBound
    | BranchOutsideFunctionOrIntoInstruction | UnknownRipRelativeReference
    | FallthroughOutsideFunction | ReturnAndAllNamedStaticsRequired
    // retained proof
    | CallbackProofHexBound | CallbackProofInstructions | CallbackProofCodeBound | CallbackProofUnwind
    | CallbackProofStart | CallbackProofRegion | CallbackProofIdentity | CallbackProofContentDrift
}
