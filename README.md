# Exynos external interrupts and 802.11k radio measurement, modelled in Dafny

This project models two independent pieces of a Samsung Exynos 7880 Android kernel.

**Exynos EINT controller** (`drivers/pinctrl/samsung/pinctrl-exynos.c`). The pin controller's external-interrupt logic covers:

- the per-pin chip operations: mask, ack, unmask, set_type, request and release of the pin function, and set_wake on the driver-wide wake mask;
- the GPIO demultiplexer, which decodes the service register;
- the muxed wake-up demultiplexer, which drains `pend & ~mask` from the highest bit down;
- the chained handler of the dedicated wake-up lines;
- the filter configuration loop;
- GPIO EINT setup, with rollback of the domains already created;
- wake-up EINT setup, with reclassification of banks without parent lines as WKUP_MUX and the muxed group built from them;
- suspend and resume;
- the 7880 GPIO count and EINT-to-pin conversion.

Other parts are modelled as follows:

- **Registers.** The hardware is a register file (offset → 32-bit word, a word being its 32 bits).
- **Kernel IRQ layer.** It is a class holding the IRQ domains (id → hwirq → virq) and an ordered trace of register writes, lock and unlock, handler and dispatch events.
- **Banks and controller.** They are classes whose `irq_domain`, `eint_type` and `soc_priv` fields the code updates in place.
- **Kernel inputs.** What the kernel or the device tree may answer is an input of the operation: a domain or allocation that fails, a parent line that is missing, a lock that is refused.

**802.11k RRM in the WLAN protocol engine** (`rrmApi.c` of the qcacld-2.0 driver, `CORE/MAC/src/pe/rrm`). This covers:

- transmit-power clamping and the RCPI mapping;
- the management tx-power and start-TSF caches;
- initialisation and cleanup;
- the neighbor report request and response, with the dialog token;
- admission of a beacon measurement request, including the maximum measurement duration of IEEE 802.11k-2008 (clause 11.10.8.1, Table 7-29g) and the bounded copy of the AP channel lists;
- the element filter `rrmFillBeaconIes`;
- the beacon report built from SME's scan results;
- the reply to a radio measurement request, with its refused and incapable entries;
- the failure report.

The RRM part of `pMac` is a class. Its fields are `pCurrentReq`, `DialogToken`, `txMgmtPower`, `startTSF` and the capabilities. The class also holds `sent`, the ordered list of frames and SME messages handed to the transmit path.

Header constants the code is compiled against are parameters. This covers the EINT register offsets and field widths, `RRM_*`, `RCPI_*`, `BEACON_REPORT_MAX_IES`, the measurement types and the structure sizes. The macros `SYS_TU_TO_MS`, `SYS_MS_TO_TU` and `CALCULATE_RCPI` are function parameters.

## Model

| member | source | states |
|---|---|---|
| ExynosRegs.SetBitEffect | drivers/pinctrl/samsung/pinctrl-exynos.c:92-93 | `w \| (1 << k)` sets bit k and leaves the other 31 bits unchanged |
| ExynosRegs.ClearBitEffect | drivers/pinctrl/samsung/pinctrl-exynos.c:133-134 | `w & ~(1 << k)` clears bit k and leaves the other 31 bits unchanged |
| ExynosRegs.SetThenClear | drivers/pinctrl/samsung/pinctrl-exynos.c:79-137 | setting and then clearing a bit that was clear gives the original word back |
| ExynosRegs.FieldReadback | drivers/pinctrl/samsung/pinctrl-exynos.c:175-178 | a field replaced by a value that fits its width reads back as that value |
| ExynosRegs.FieldFrame | drivers/pinctrl/samsung/pinctrl-exynos.c:175-178 | replacing one field leaves every bit outside it unchanged |
| ExynosRegs.OtherField | drivers/pinctrl/samsung/pinctrl-exynos.c:175-178 | replacing one field leaves a disjoint field of the same width unchanged |
| ExynosModel.IrqLayer.AddLinear | drivers/pinctrl/samsung/pinctrl-exynos.c:371-377 | a successful domain creation adds one fresh, empty domain under a new id; a failed one changes nothing |
| ExynosModel.IrqLayer.Remove | drivers/pinctrl/samsung/pinctrl-exynos.c:382 | removing a domain takes exactly that id out of the domain map |
| ExynosModel.Writel | drivers/pinctrl/samsung/pinctrl-exynos.c:178 | `writel` stores the value at the offset and records the write in the trace |
| ExynosModel.ApplyWritesAppend | drivers/pinctrl/samsung/pinctrl-exynos.c:339-340 | applying two write lists one after the other equals applying their concatenation |
| ExynosModel.ApplyWritesElsewhere | drivers/pinctrl/samsung/pinctrl-exynos.c:339-340 | a register that no write targets keeps its value |
| ExynosModel.ApplyWritesLast | drivers/pinctrl/samsung/pinctrl-exynos.c:339-340 | a register holds the value of the last write to it |
| ExynosChip.TriggerCode | drivers/pinctrl/samsung/pinctrl-exynos.c:149-168 | exactly the five supported trigger types are encoded, and each code fits the CON field |
| ExynosChip.FlowOfAcceptedTypes | drivers/pinctrl/samsung/pinctrl-exynos.c:170-173 | the edge flow handler is chosen exactly for the three edge types and the level one for the two level types |
| ExynosChip.IrqMask | drivers/pinctrl/samsung/pinctrl-exynos.c:79-96 | only bit `hwirq` of the register at `eint_mask + eint_offset` is set, inside lock and unlock events |
| ExynosChip.MaskIdempotent | drivers/pinctrl/samsung/pinctrl-exynos.c:79-96 | masking an already masked pin leaves the register file unchanged |
| ExynosChip.IrqAck | drivers/pinctrl/samsung/pinctrl-exynos.c:98-107 | exactly `1 << hwirq` is written to `eint_pend + eint_offset`, and nothing else changes |
| ExynosChip.IrqUnmask | drivers/pinctrl/samsung/pinctrl-exynos.c:109-137 | a level-type pin is acked once first (an edge type not at all), then only bit `hwirq` of the mask register is cleared under the lock |
| ExynosChip.MaskUnmaskRoundTrip | drivers/pinctrl/samsung/pinctrl-exynos.c:79-137 | mask followed by unmask of a pin that was unmasked restores its mask register, for edge and level types; a level pin's pending register is left holding its bit alone (the ack); every other register keeps its value |
| ExynosChip.IrqSetType | drivers/pinctrl/samsung/pinctrl-exynos.c:139-181 | an unsupported type returns -EINVAL with no handler change and no write; a supported one selects the flow handler and rewrites only the pin's CON field, without taking the bank lock |
| ExynosChip.SetTypeFields | drivers/pinctrl/samsung/pinctrl-exynos.c:175-178 | after set_type the pin's CON field reads back as the encoded trigger and every other pin's field is unchanged |
| ExynosChip.IrqRequestResources | drivers/pinctrl/samsung/pinctrl-exynos.c:183-218 | a failed GPIO lock returns its error and changes nothing; otherwise the pin's FUNC field is set to EINT under the lock and 0 is returned |
| ExynosChip.IrqReleaseResources | drivers/pinctrl/samsung/pinctrl-exynos.c:220-247 | the pin's FUNC field is set back to input under the lock and the GPIO lock is released |
| ExynosChip.RequestReleaseFunction | drivers/pinctrl/samsung/pinctrl-exynos.c:183-247 | after request the FUNC field reads EINT, after release it reads input, and other fields keep their values |
| ExynosChip.GpioIrqMap | drivers/pinctrl/samsung/pinctrl-exynos.c:267-277 | the mapped virq gets the bank as chip data and the GPIO chip with the level handler; the result is 0 |
| ExynosChip.WkupIrqMap | drivers/pinctrl/samsung/pinctrl-exynos.c:500-508 | the mapped virq gets the wake-up chip with the level handler and the bank as chip data; the result is 0 |
| ExynosChip.WakeUpdate | drivers/pinctrl/samsung/pinctrl-exynos.c:413-420 | set_wake(on) clears bit `2 * eint_offset + hwirq`, set_wake(off) sets it, every other bit is unchanged; an index of 32 or more changes nothing |
| ExynosChip.WakeOnOffRoundTrip | drivers/pinctrl/samsung/pinctrl-exynos.c:410-423 | enabling and then disabling wake for a pin restores a mask whose bit was set |
| ExynosChip.WakeMask.constructor | drivers/pinctrl/samsung/pinctrl-exynos.c:403 | the wake mask starts as 0xffffffff |
| ExynosChip.WakeMask.Get | drivers/pinctrl/samsung/pinctrl-exynos.c:405-408 | the getter returns the current mask |
| ExynosChip.WakeMask.SetWake | drivers/pinctrl/samsung/pinctrl-exynos.c:410-423 | set_wake updates the mask by `WakeUpdate` at bit `2 * eint_offset + hwirq` and returns 0 |
| ExynosDemux.SvcDecodeRoundTrip | drivers/pinctrl/samsung/pinctrl-exynos.c:294-296 | decoding a service word built from a group and a pin gives back that group and that pin |
| ExynosDemux.EintGpioIrq | drivers/pinctrl/samsung/pinctrl-exynos.c:287-307 | group 0 returns IRQ_HANDLED with no dispatch; otherwise bank `group - 1` is looked up, an unmapped pin returns IRQ_NONE and a mapped one is dispatched once and returns IRQ_HANDLED |
| ExynosDemux.Fls | drivers/pinctrl/samsung/pinctrl-exynos.c:470 | `fls` is 0 exactly for a zero word, otherwise one more than the highest set bit |
| ExynosDemux.SetBitsBelowMembers | drivers/pinctrl/samsung/pinctrl-exynos.c:469-473 | the bits the drain loop visits are exactly the set bits of the pending word |
| ExynosDemux.SetBitsBelowDescending | drivers/pinctrl/samsung/pinctrl-exynos.c:469-473 | the drain loop visits the set bits in strictly descending order, so each once |
| ExynosDemux.SetBitsPeel | drivers/pinctrl/samsung/pinctrl-exynos.c:470-472 | clearing the highest set bit leaves exactly the remaining set bits to visit |
| ExynosDemux.DispatchPeel | drivers/pinctrl/samsung/pinctrl-exynos.c:469-473 | one iteration dispatches the highest pending bit and leaves the dispatches of the rest |
| ExynosDemux.DemuxEint | drivers/pinctrl/samsung/pinctrl-exynos.c:464-474 | the trace gains one dispatch per set bit of `pend`, highest first, and the loop ends with `pend == 0` |
| ExynosDemux.MuxTargets | drivers/pinctrl/samsung/pinctrl-exynos.c:488-495 | one (register offset, domain) pair per muxed bank, in the order of the handler data |
| ExynosDemux.DemuxBank | drivers/pinctrl/samsung/pinctrl-exynos.c:489-494 | one bank's `pend & ~mask` is drained into its domain |
| ExynosDemux.DemuxGroup | drivers/pinctrl/samsung/pinctrl-exynos.c:488-495 | the muxed banks are drained in the order of the handler data |
| ExynosDemux.Demux16To31 | drivers/pinctrl/samsung/pinctrl-exynos.c:477-498 | chained enter, then every muxed bank drained in group order, then chained exit |
| ExynosDemux.Eint0To15 | drivers/pinctrl/samsung/pinctrl-exynos.c:445-462 | chained enter, then mask of the parent line, its ack when its chip has one, one dispatch of the child and unmask of the parent, then chained exit |
| ExynosFilter.FltConWord | drivers/pinctrl/samsung/pinctrl-exynos.c:323-331 | the filter control byte fits its field and has the EN and SEL bits set when asked |
| ExynosFilter.FltWrites | drivers/pinctrl/samsung/pinctrl-exynos.c:334-341 | the loop issues two writes per pin pair |
| ExynosFilter.FltFoldWritten | drivers/pinctrl/samsung/pinctrl-exynos.c:334-341 | fields `0 .. nr_pins/2 - 1` of the written word hold the filter byte |
| ExynosFilter.FltFoldKept | drivers/pinctrl/samsung/pinctrl-exynos.c:334-341 | higher fields of the written word keep their old value |
| ExynosFilter.FltWritesTargets | drivers/pinctrl/samsung/pinctrl-exynos.c:339-340 | the loop writes only the first filter register and the one 4 bytes above it |
| ExynosFilter.FltWritesClosed | drivers/pinctrl/samsung/pinctrl-exynos.c:334-341 | after n iterations both filter registers hold the old first-register word with fields 0 .. n-1 replaced by the filter byte |
| ExynosFilter.FltConfigOthers | drivers/pinctrl/samsung/pinctrl-exynos.c:315-342 | no register other than the two filter registers changes |
| ExynosFilter.FltConfigLast | drivers/pinctrl/samsung/pinctrl-exynos.c:336-340 | for a bank with two or more pins, both filter registers (the first and the one at +0x4) end holding the last word written |
| ExynosFilter.FltConfigEffect | drivers/pinctrl/samsung/pinctrl-exynos.c:315-342 | fields `0 .. nr_pins/2 - 1` of the first filter register equal the built filter byte, higher fields keep their value, the second register copies the first, no other register changes, and with fewer than two pins nothing is written |
| ExynosFilter.FltConfig | drivers/pinctrl/samsung/pinctrl-exynos.c:315-342 | the registers and the trace change exactly by the filter writes computed from the first register's old value |
| ExynosInit.GpioStop | drivers/pinctrl/samsung/pinctrl-exynos.c:368-389 | the bank at which the loop stops is the first GPIO bank whose domain or save area fails |
| ExynosInit.WithFreshKeys | drivers/pinctrl/samsung/pinctrl-exynos.c:371-377 | the domains created by the loop are exactly the old ones plus one fresh id per GPIO bank passed |
| ExynosInit.InitGpioBank | drivers/pinctrl/samsung/pinctrl-exynos.c:371-388 | one GPIO bank: a failed domain gives -ENXIO, a failed save area removes the domain and gives -ENOMEM, success installs both and writes the digital filter |
| ExynosInit.RemoveBankDomain | drivers/pinctrl/samsung/pinctrl-exynos.c:394-398 | one rollback step removes the domain of one GPIO bank |
| ExynosInit.RemoveGpioDomains | drivers/pinctrl/samsung/pinctrl-exynos.c:393-400 | the rollback removes every domain created for the GPIO banks before the failing one |
| ExynosInit.GpioInitBankStep | drivers/pinctrl/samsung/pinctrl-exynos.c:368-389 | one loop step on a GPIO bank keeps the loop invariant on success and reports the failing bank otherwise |
| ExynosInit.GpioInitGpioStep | drivers/pinctrl/samsung/pinctrl-exynos.c:368-400 | a failing GPIO bank ends in the rolled-back outcome; a passing one advances the loop |
| ExynosInit.GpioInitStep | drivers/pinctrl/samsung/pinctrl-exynos.c:368-400 | one iteration over any bank: other types are skipped, GPIO banks go through GpioInitGpioStep |
| ExynosInit.GpioInitLoop | drivers/pinctrl/samsung/pinctrl-exynos.c:367-400 | the bank loop ends in `GpioInitOutcome`: success with every GPIO bank set up, or the error of the failing bank with the earlier domains removed |
| ExynosInit.GpioInitUnwind | drivers/pinctrl/samsung/pinctrl-exynos.c:393-400 | after a failure the domains created so far are removed and the error code is returned |
| ExynosInit.GpioLoopDone | drivers/pinctrl/samsung/pinctrl-exynos.c:391 | a loop that reached the end succeeded and returns 0 |
| ExynosInit.EintGpioInit | drivers/pinctrl/samsung/pinctrl-exynos.c:348-401 | `irq == 0` gives -EINVAL and a failed IRQ request -ENXIO, both with no domain created and nothing written; otherwise the loop outcome with every created domain removed again on failure |
| ExynosWkup.WkupStop | drivers/pinctrl/samsung/pinctrl-exynos.c:543-584 | the loop stops at the first wake-up bank whose domain or pin data fails |
| ExynosWkup.WkupLoopMux | drivers/pinctrl/samsung/pinctrl-exynos.c:559-562 | the banks reclassified as WKUP_MUX are the wake-up banks before the stop without an `interrupts` property, and `muxed_banks` counts them |
| ExynosWkup.WkupLoopRet | drivers/pinctrl/samsung/pinctrl-exynos.c:552-570 | the loop returns 0, -ENXIO for a failed domain or -ENOMEM for failed pin data |
| ExynosWkup.WkupLoopNext | drivers/pinctrl/samsung/pinctrl-exynos.c:552-557 | domain ids are handed out in order, one per wake-up bank entered |
| ExynosWkup.WkupLoopDomains | drivers/pinctrl/samsung/pinctrl-exynos.c:552-557 | the domain map gains one fresh empty domain per wake-up bank entered |
| ExynosWkup.WkupLoopOd | drivers/pinctrl/samsung/pinctrl-exynos.c:552-557 | each wake-up bank entered holds its new domain and other banks keep theirs |
| ExynosWkup.WkupLoopSticky | drivers/pinctrl/samsung/pinctrl-exynos.c:554-570 | after an error no later bank changes the state or the trace |
| ExynosWkup.MuxBanksCount | drivers/pinctrl/samsung/pinctrl-exynos.c:605-612 | the handler data lists exactly `muxed_banks` banks |
| ExynosWkup.WkupMuxedGroup | drivers/pinctrl/samsung/pinctrl-exynos.c:586-613 | on success the muxed group is exactly the reclassified banks, so the handler data sized for `muxed_banks` entries is filled and not overrun |
| ExynosWkup.SetPinHandlers | drivers/pinctrl/samsung/pinctrl-exynos.c:572-583 | each pin with a parent line gets handler data and the eint0_15 chained handler, in pin order; pins without one are skipped |
| ExynosWkup.WkupBankDomain | drivers/pinctrl/samsung/pinctrl-exynos.c:552-570 | one wake-up bank's domain, property and allocation checks update the control state by one step |
| ExynosWkup.WkupInitBank | drivers/pinctrl/samsung/pinctrl-exynos.c:544-584 | one bank iteration writes the digital filter to a wake-up bank and records its trace |
| ExynosWkup.WkupInitIter | drivers/pinctrl/samsung/pinctrl-exynos.c:544-584 | one iteration keeps the loop invariant, or ends the loop on an error |
| ExynosWkup.WkupInitLoop | drivers/pinctrl/samsung/pinctrl-exynos.c:543-584 | the bank loop ends in its specified outcome |
| ExynosWkup.WkupInitMuxed | drivers/pinctrl/samsung/pinctrl-exynos.c:586-615 | no muxed bank, or no parent line, returns 0; a failed allocation -ENOMEM; otherwise the chained demux handler is installed over the muxed banks |
| ExynosWkup.EintWkupInit | drivers/pinctrl/samsung/pinctrl-exynos.c:522-616 | no wake-up node gives -ENODEV and changes nothing; otherwise the registers, trace, domains and bank types are those of the specified loop followed by the muxed-group setup |
| ExynosPm.FilterModes | drivers/pinctrl/samsung/pinctrl-exynos.c:649-651 | the analog filter is EN alone and the digital filter is EN and SEL |
| ExynosPm.RestoreAfterSave | drivers/pinctrl/samsung/pinctrl-exynos.c:618-678 | restoring the values just saved from a register file leaves it unchanged |
| ExynosPm.SuspendBank | drivers/pinctrl/samsung/pinctrl-exynos.c:618-635 | the bank's save area holds CON, FLTCON0 and FLTCON1 as read |
| ExynosPm.Suspend | drivers/pinctrl/samsung/pinctrl-exynos.c:637-653 | GPIO banks are saved, wake-up and muxed wake-up banks get the analog filter, other banks are untouched |
| ExynosPm.ResumeBank | drivers/pinctrl/samsung/pinctrl-exynos.c:655-678 | the saved CON, FLTCON0 and FLTCON1 values are written back |
| ExynosPm.RestoreEffect | drivers/pinctrl/samsung/pinctrl-exynos.c:672-677 | a bank's restore is three writes, CON then FLTCON0 then FLTCON1, each with its saved value |
| ExynosPm.SuspendStep | drivers/pinctrl/samsung/pinctrl-exynos.c:644-652 | one suspend iteration extends the writes, the trace and the saves by exactly what bank i contributes |
| ExynosPm.ResumeStep | drivers/pinctrl/samsung/pinctrl-exynos.c:687-696 | one resume iteration extends the writes and the trace by exactly what bank i contributes |
| ExynosPm.Resume | drivers/pinctrl/samsung/pinctrl-exynos.c:680-697 | GPIO banks get their saved values back, wake-up and muxed wake-up banks the digital filter, other banks nothing |
| ExynosPm.NoWakeNoWrites | drivers/pinctrl/samsung/pinctrl-exynos.c:644-652 | without wake-up banks suspend writes nothing |
| ExynosPm.ResumeWritesBack | drivers/pinctrl/samsung/pinctrl-exynos.c:687-696 | resume after a suspend without wake-up banks writes back only values registers already hold |
| ExynosPm.SuspendResumeRoundTrip | drivers/pinctrl/samsung/pinctrl-exynos.c:618-697 | without wake-up banks, suspend then resume leaves every register as it was |
| Exynos7880.BankPinsAppend | drivers/pinctrl/samsung/pinctrl-exynos.c:1697-1700 | the pin count of two bank lists is the sum of their counts |
| Exynos7880.TotalPinsAllBanks | drivers/pinctrl/samsung/pinctrl-exynos.c:1697-1700 | counting controller by controller equals counting all banks in one list |
| Exynos7880.SecGpioNrGpio | drivers/pinctrl/samsung/pinctrl-exynos.c:1692-1703 | the result is the sum of `nr_pins` over every bank of every controller |
| Exynos7880.Alive7880Pins | drivers/pinctrl/samsung/pinctrl-exynos.c:1550-1558 | the 7880 ALIVE table has 40 pins |
| Exynos7880.EtcBanks | drivers/pinctrl/samsung/pinctrl-exynos.c:1726-1728 | the loop stops at the first bank named `gpa...`, or at the end of the table |
| Exynos7880.EintToPinNum | drivers/pinctrl/samsung/pinctrl-exynos.c:1721-1731 | the pin is base plus EINT plus the pins of the banks in front of the first `gpa` bank, in u32 arithmetic, with names and pin counts read from separate tables |
| Exynos7880.BankPinsAgree | drivers/pinctrl/samsung/pinctrl-exynos.c:1726-1728 | two tables with the same pin counts in their first n banks give the same offset |
| Exynos7880.AliveEtcOffset | drivers/pinctrl/samsung/pinctrl-exynos.c:1416-1423 | on the real tables two banks precede `gpa0` and both tables give them 9 pins |
| Exynos7880.Exynos7880EintToPinNum | drivers/pinctrl/samsung/pinctrl-exynos.c:1721-1731 | EINT `eint` of the ALIVE controller is pin `base + eint + 9` |
| Exynos7880.Alive7880WakeBits | drivers/pinctrl/samsung/pinctrl-exynos.c:1550-1558 | the wake-up banks of the 7880 ALIVE table have their wake bits below 32, without overlap |
| Exynos7880.WakeBitsDistinct | drivers/pinctrl/samsung/pinctrl-exynos.c:413 | distinct wake-up pins of the table have distinct wake-mask bits |
| RrmPower.MinOfMaxTxPower | drivers/net/wireless/qcacld-2.0/CORE/MAC/src/pe/rrm/rrmApi.c:57-73 | the result is always between the two caps, and equals the u8 value of the minimum whenever that value is in range |
| RrmPower.NegativePowerRaisesClamp | drivers/net/wireless/qcacld-2.0/CORE/MAC/src/pe/rrm/rrmApi.c:57-73 | a regulatory maximum of -1 gives the upper cap while 0 gives the lower one |
| RrmPower.ClampedTxPower | drivers/net/wireless/qcacld-2.0/CORE/MAC/src/pe/rrm/rrmApi.c:57-73 | the signed clamp: between the caps, equal to the minimum when in range, the lower cap below |
| RrmPower.ClampedTxPowerMonotone | drivers/net/wireless/qcacld-2.0/CORE/MAC/src/pe/rrm/rrmApi.c:57-73 | the signed clamp never decreases when either input grows |
| RrmPower.ClampAgreesOnNonNegative | drivers/net/wireless/qcacld-2.0/CORE/MAC/src/pe/rrm/rrmApi.c:57-73 | for non-negative inputs the code's result equals the signed clamp |
| RrmPower.Rcpi | drivers/net/wireless/qcacld-2.0/CORE/MAC/src/pe/rrm/rrmApi.c:314-319 | RSSI at or below the low threshold gives 0, a positive RSSI the maximum, the rest the conversion macro |
| RrmPower.RcpiMonotone | drivers/net/wireless/qcacld-2.0/CORE/MAC/src/pe/rrm/rrmApi.c:314-319 | with a sound conversion the RCPI is within [0, max] and never decreases as RSSI grows |
| RrmContext.RrmPeContext.Initialize | drivers/net/wireless/qcacld-2.0/CORE/MAC/src/pe/rrm/rrmApi.c:1224-1248 | no current request, power and token 0, RRM disabled, the engine's capabilities, success |
| RrmContext.RrmPeContext.Cleanup | drivers/net/wireless/qcacld-2.0/CORE/MAC/src/pe/rrm/rrmApi.c:1269-1285 | the current request is released and success returned |
| RrmContext.RrmPeContext.UpdateStartTSF | drivers/net/wireless/qcacld-2.0/CORE/MAC/src/pe/rrm/rrmApi.c:1157-1161 | the two start-TSF words are cached |
| RrmContext.RrmPeContext.GetStartTSF | drivers/net/wireless/qcacld-2.0/CORE/MAC/src/pe/rrm/rrmApi.c:1179-1184 | the cached words are copied out and the rest of the buffer is untouched |
| RrmContext.CacheMgmtTxPower | drivers/net/wireless/qcacld-2.0/CORE/MAC/src/pe/rrm/rrmApi.c:91-132 | the power reads back with `rrmGetMgmtTxPower` on the same session; with a session the global value is untouched |
| RrmContext.SetMaxTxPowerRsp | drivers/net/wireless/qcacld-2.0/CORE/MAC/src/pe/rrm/rrmApi.c:212-247 | broadcast: every valid session caches the power, success; otherwise the session found caches it, and failure exactly when none was found |
| RrmContext.NextToken | drivers/net/wireless/qcacld-2.0/CORE/MAC/src/pe/rrm/rrmApi.c:467 | the pre-incremented token differs from the old one and wraps from 255 to 0 |
| RrmContext.TokenAfterValue | drivers/net/wireless/qcacld-2.0/CORE/MAC/src/pe/rrm/rrmApi.c:467 | k requests advance the token by k modulo 256 |
| RrmContext.TokensDistinct | drivers/net/wireless/qcacld-2.0/CORE/MAC/src/pe/rrm/rrmApi.c:467 | up to 256 consecutive requests carry distinct tokens |
| RrmContext.ProcessNeighborReportReq | drivers/net/wireless/qcacld-2.0/CORE/MAC/src/pe/rrm/rrmApi.c:444-478 | no request or no session fails with nothing changed; otherwise the token is pre-incremented and the request frame carries the new token and the SSID unless SME said there is none |
| RrmContext.StaleResponseRejected | drivers/net/wireless/qcacld-2.0/CORE/MAC/src/pe/rrm/rrmApi.c:364-374 | a response carrying the token of an earlier one of the last 256 requests is rejected |
| RrmContext.NeighborListEntries | drivers/net/wireless/qcacld-2.0/CORE/MAC/src/pe/rrm/rrmApi.c:390-410 | one neighbor entry per report element, in order, with its BSSID, channel and flags |
| RrmContext.ProcessNeighborReportResponse | drivers/net/wireless/qcacld-2.0/CORE/MAC/src/pe/rrm/rrmApi.c:345-426 | no session, a token other than the current one, or zero reports fails and sends nothing; an allocation failure gives MEM_ALLOC_FAILED; otherwise the indication with every neighbor is posted to SME |
| RrmBeacon.MaxMeasDurationStep | drivers/net/wireless/qcacld-2.0/CORE/MAC/src/pe/rrm/rrmApi.c:536-542 | raising `nonOperatingChanMax` by one never shortens the maximum duration |
| RrmBeacon.MaxMeasDurationMonotone | drivers/net/wireless/qcacld-2.0/CORE/MAC/src/pe/rrm/rrmApi.c:536-542 | the maximum duration never decreases with `nonOperatingChanMax` |
| RrmBeacon.MaxMeasDurationAnchors | drivers/net/wireless/qcacld-2.0/CORE/MAC/src/pe/rrm/rrmApi.c:536-542 | at 4 the maximum is one beacon interval, at the engine's own value 3 half of one |
| RrmBeacon.AdmissionRule | drivers/net/wireless/qcacld-2.0/CORE/MAC/src/pe/rrm/rrmApi.c:511-559 | incapable exactly for a non-zero reporting condition; refused exactly for a mandatory duration above the maximum; otherwise admitted with the duration cut to the maximum |
| RrmBeacon.FlattenLength | drivers/net/wireless/qcacld-2.0/CORE/MAC/src/pe/rrm/rrmApi.c:627-650 | the concatenated lists are as long as their lengths summed |
| RrmBeacon.SumLensPrefix | drivers/net/wireless/qcacld-2.0/CORE/MAC/src/pe/rrm/rrmApi.c:584-588 | a prefix of the lists has no more channels than all of them |
| RrmBeacon.NumChannels | drivers/net/wireless/qcacld-2.0/CORE/MAC/src/pe/rrm/rrmApi.c:584-588 | `num_channels` is the total of all lists' lengths truncated to a byte |
| RrmBeacon.CopyChannelList | drivers/net/wireless/qcacld-2.0/CORE/MAC/src/pe/rrm/rrmApi.c:627-650 | lists are copied contiguously in order until the first that does not fit; the array is never written past its end and the rest keeps its content |
| RrmBeacon.NumChannelsCountsAll | drivers/net/wireless/qcacld-2.0/CORE/MAC/src/pe/rrm/rrmApi.c:584-650 | when a list was left out, the channel count exceeds the array size |
| RrmBeacon.ProcessBeaconReportReq | drivers/net/wireless/qcacld-2.0/CORE/MAC/src/pe/rrm/rrmApi.c:499-657 | a denied request returns its status with nothing changed; an admitted one caches detail, ids and token and posts the SME request, or fails on an allocation with the request partly updated |
| RrmIes.WalkFit | drivers/net/wireless/qcacld-2.0/CORE/MAC/src/pe/rrm/rrmApi.c:711-736 | the walk takes the code's steps on its byte counter and ends where the counter reaches 0 or at the first element that does not fit; the bytes it passes are whole, well-formed elements |
| RrmIes.BcnIes | drivers/net/wireless/qcacld-2.0/CORE/MAC/src/pe/rrm/rrmApi.c:697-698 | the elements the walk passes, counting down from the IE length truncated to a byte over the whole IE fields, form a well-formed prefix of those fields |
| RrmIes.WalkFitAgrees | drivers/net/wireless/qcacld-2.0/CORE/MAC/src/pe/rrm/rrmApi.c:711-736 | where the counter ends the walk, the code's own loop, given enough iterations, ends in the same state as the model's walk |
| RrmIes.WrappedCounterWalksOn | drivers/net/wireless/qcacld-2.0/CORE/MAC/src/pe/rrm/rrmApi.c:697-736 | a 260-byte list of a 255-byte and a 5-byte element: the counter starts at 4 and wraps to 5, so the code and the model both walk the whole list |
| RrmIes.ElementLenU8 | drivers/net/wireless/qcacld-2.0/CORE/MAC/src/pe/rrm/rrmApi.c:713 | `len` in a byte: the element size for length bytes up to 253, 0 for 254 and 1 for 255 |
| RrmIes.LengthByte254Stalls | drivers/net/wireless/qcacld-2.0/CORE/MAC/src/pe/rrm/rrmApi.c:711-736 | as written, an element with length byte 254 leaves the walk where it is with a positive counter after any number of iterations |
| RrmIes.SsidOf254Bytes | drivers/net/wireless/qcacld-2.0/CORE/MAC/src/pe/rrm/rrmApi.c:711-736 | the list `[0, 254]` keeps the code's loop at offset 0 forever, while the model's walk stops there with nothing walked |
| RrmIes.FixedFieldsRoundTrip | drivers/net/wireless/qcacld-2.0/CORE/MAC/src/pe/rrm/rrmApi.c:700-709 | the 12 fixed bytes decode back to the two timestamp words, the beacon interval and the capability field |
| RrmIes.FillBound | drivers/net/wireless/qcacld-2.0/CORE/MAC/src/pe/rrm/rrmApi.c:711-736 | the appended elements keep the count below the buffer size |
| RrmIes.FillSelects | drivers/net/wireless/qcacld-2.0/CORE/MAC/src/pe/rrm/rrmApi.c:711-736 | the appended bytes are well-formed elements, each wanted by the filter, in source order, each at most once |
| RrmIes.FillWanted | drivers/net/wireless/qcacld-2.0/CORE/MAC/src/pe/rrm/rrmApi.c:711-736 | the appended bytes are well-formed elements that all pass the filter |
| RrmIes.FillAllFits | drivers/net/wireless/qcacld-2.0/CORE/MAC/src/pe/rrm/rrmApi.c:711-736 | without an id list and with room for everything, all elements are copied |
| RrmIes.MatchAndFits | drivers/net/wireless/qcacld-2.0/CORE/MAC/src/pe/rrm/rrmApi.c:717-732 | the do-while hits exactly when the element is wanted (ids read from `eids[0..]`, at least one even when `numEids` is 0) and fits |
| RrmIes.NextIe | drivers/net/wireless/qcacld-2.0/CORE/MAC/src/pe/rrm/rrmApi.c:713-735 | one element is copied exactly when wanted and `*pNumIes + len < max`, and the count is the bytes written |
| RrmIes.WalkIes | drivers/net/wireless/qcacld-2.0/CORE/MAC/src/pe/rrm/rrmApi.c:711-736 | from `ies` and the starting counter, the buffer holds the fixed fields then `Fill` of the elements the walk passes, the count is the bytes written, the rest is untouched |
| RrmIes.WalkRest | drivers/net/wireless/qcacld-2.0/CORE/MAC/src/pe/rrm/rrmApi.c:711-736 | started at any offset and counter, the loop ends with the buffer holding the fixed fields, the elements already written, then `Fill` of the elements the walk still passes, and the count equal to their total length |
| RrmIes.WalkNext | drivers/net/wireless/qcacld-2.0/CORE/MAC/src/pe/rrm/rrmApi.c:713-735 | one iteration copies or skips the element at the offset, moves past it and steps the counter down in a byte, keeping the loop invariant |
| RrmIes.FillBeaconIes | drivers/net/wireless/qcacld-2.0/CORE/MAC/src/pe/rrm/rrmApi.c:680-738 | no BSS description returns at once; otherwise 12 fixed bytes then the wanted elements that fit, taken from the elements the walk passes on its byte counter (`BcnIes`), with `*pNumIes` the bytes written and the rest of the buffer untouched |
| RrmReport.ReportsShape | drivers/net/wireless/qcacld-2.0/CORE/MAC/src/pe/rrm/rrmApi.c:1037-1126 | at most one entry per request; every entry is refused or incapable and carries the measurement token and type of one of the requests; a leading beacon request with none pending adds no entry and leaves the rest reported as pending |
| RrmReport.FirstBeacon | drivers/net/wireless/qcacld-2.0/CORE/MAC/src/pe/rrm/rrmApi.c:1037-1071 | the index of a beacon request with no beacon request before it |
| RrmReport.PendingRefusesAll | drivers/net/wireless/qcacld-2.0/CORE/MAC/src/pe/rrm/rrmApi.c:1041-1068 | while a request is pending every request except LCI, civic and FTM gets an entry |
| RrmReport.ProcessBeaconRequestFailure | drivers/net/wireless/qcacld-2.0/CORE/MAC/src/pe/rrm/rrmApi.c:918-957 | refused or incapable sends one beacon entry with the current token and that bit; any other status or a failed allocation sends nothing |
| RrmReport.StartOutcome | drivers/net/wireless/qcacld-2.0/CORE/MAC/src/pe/rrm/rrmApi.c:1070-1092 | a started beacon request stays current, with the dialog and measurement tokens, the empty-report flag and its reporting detail, only when it was the one message handed to SME; otherwise at most an SME request and a refusal or incapability frame are sent, and no frame at all when the failure report cannot be allocated (rrmApi.c:924-930) |
| RrmReport.StartBeaconRequest | drivers/net/wireless/qcacld-2.0/CORE/MAC/src/pe/rrm/rrmApi.c:1070-1092 | the new current request and the messages appended are exactly `StartOutcome` of the request, the failure report's allocation being an input like the others |
| RrmReport.AddReport | drivers/net/wireless/qcacld-2.0/CORE/MAC/src/pe/rrm/rrmApi.c:1045-1067 | the first entry allocates the array sized for the remaining requests; the entry is stored at `num_report`, which grows by one |
| RrmReport.MeasureOne | drivers/net/wireless/qcacld-2.0/CORE/MAC/src/pe/rrm/rrmApi.c:1039-1125 | one request: its entry is appended as `Emitted` says and the pending flag advances as `PendingAfter` says; a beacon request with none pending leaves the current request and the sent messages as `StartOutcome` gives, and every other request leaves both alone |
| RrmReport.MeasureEach | drivers/net/wireless/qcacld-2.0/CORE/MAC/src/pe/rrm/rrmApi.c:1037-1137 | the entries sent equal `Reports` of the requests, in one frame at the end when there is any; with none pending, the first beacon request (`FirstBeacon`) decides the final current request and what precedes the frame, as `StartOutcome` gives; otherwise the current request is unchanged |
| RrmReport.MeasureLoop | drivers/net/wireless/qcacld-2.0/CORE/MAC/src/pe/rrm/rrmApi.c:1037-1126 | the array holds exactly `Reports` of the requests; with none pending the first beacon request is the one started and its outcome is `StartOutcome`, otherwise the current request and the sent messages are untouched |
| RrmReport.ProcessRadioMeasurementRequest | drivers/net/wireless/qcacld-2.0/CORE/MAC/src/pe/rrm/rrmApi.c:979-1139 | zero requests give one incapable entry and failure; repetitions give one incapable entry typed as request 0; otherwise the loop's entries are sent, and the first beacon request, when none was pending, leaves the current request and messages as `StartOutcome` gives |
| RrmXmit.ReportIes | drivers/net/wireless/qcacld-2.0/CORE/MAC/src/pe/rrm/rrmApi.c:866-888 | the element part of an entry has 12 to `BEACON_REPORT_MAX_IES` bytes |
| RrmXmit.XmitEntriesShape | drivers/net/wireless/qcacld-2.0/CORE/MAC/src/pe/rrm/rrmApi.c:785-814 | `numBssDesc` entries (RRM_BCN_RPT_MIN_RPT for NO_BSS_INFO), each with SME's token, the beacon type, neither refused nor incapable |
| RrmXmit.EntryElements | drivers/net/wireless/qcacld-2.0/CORE/MAC/src/pe/rrm/rrmApi.c:825-890 | a present description fills BSSID, channel and regulatory class; detail 0 gives no elements, any other the fixed fields and wanted elements in source order |
| RrmXmit.EntryAllElements | drivers/net/wireless/qcacld-2.0/CORE/MAC/src/pe/rrm/rrmApi.c:876-888 | with detail 2 or above and enough room, an entry holds the fixed fields and every element |
| RrmXmit.BuildEntry | drivers/net/wireless/qcacld-2.0/CORE/MAC/src/pe/rrm/rrmApi.c:808-891 | one entry built in place equals `XmitEntry` |
| RrmXmit.BuildEntries | drivers/net/wireless/qcacld-2.0/CORE/MAC/src/pe/rrm/rrmApi.c:805-892 | the entry array equals `XmitEntries`, with the presence flag never reset |
| RrmXmit.ProcessBeaconReportXmit | drivers/net/wireless/qcacld-2.0/CORE/MAC/src/pe/rrm/rrmApi.c:756-916 | no report or no current request fails and sends nothing; a report to send needs a session and an allocation, then goes out and clears `sendEmptyBcnRpt`; `fMeasureDone` clears the current request |

## Left out

- Concurrency: the bank spin locks appear only as lock and unlock events in the trace, and every operation runs alone. The chained muxed handler is modelled as a single invocation.
- Kernel IRQ core, devres and device-tree calls are not modelled. These are domain creation, mapping lookups, `generic_handle_irq`, chained enter and exit, handler installation, `devm_*`, `of_*` and `irq_of_parse_and_map`. They appear as trace events, domain-map updates or success/failure inputs.
- The write-1-to-clear behaviour of the pending registers is not modelled: an ack is a plain register write.
- The per-SoC bank tables are left out, except the 7880 and 7870 ALIVE tables, which the pin-number conversion reads.
- `exynos_eint_to_pin_num` for the 7870 and 8890 builds (pinctrl-exynos.c:1707-1718) is left out; only the 7880 build is modelled.
- ExynosPm.SuspendResumeRoundTrip: the round trip is proved for controllers without wake-up banks only. Wake-up banks are not restored: suspend writes the analog filter to them and resume the digital one.
- RrmReport.ProcessRadioMeasurementRequest: the allocations of the single report, of `pCurrentReq` and of the report array are taken to succeed. Their `eSIR_MEM_ALLOC_FAILED` paths are not modelled.
- `rrmSendSetMaxTxPowerReq` and the rest of `rrmProcessLinkMeasurementRequest` are not modelled: they build and send frames using `limGetMaxTxPower`. Only their RCPI branch is.
- `rrmGetCapabilities`, `rrmProcessMessage` and `lim_update_rrm_capability` are not modelled. They dispatch messages or copy raw structures whose byte layout is not visible.
- The current request is held by value (`Option<RrmReq>`), not by pointer. Freeing it is setting it to `None`.
- A tx power (`tPowerdBm`) is taken to be a signed byte.
- The session lookup by BSSID is an input: the session found, or none.
- What SME posting and frame sending return is an input. A sent frame or message is an entry appended to `sent`.
- RrmXmit.ProcessBeaconReportXmit requires that no absent BSS description follow a present one. The source never resets its presence flag, so such a description would be dereferenced as a null pointer. Each entry's element buffer is filled in a scratch array and then stored by value.
- RrmIes.FillBeaconIes: malformed element lists are not followed as the code follows them. The model takes the code's steps on its byte counter, `BcnNumIes` from `(tANI_U8)GET_IE_LEN_IN_BSS(length)` (rrmApi.c:698) stepped down by `len` in a byte (:735), over the whole IE fields. It stops, as the code does not, at the first element whose length byte is above 253 or which runs past the end of the IE fields. The code loops forever on a length byte of 254 (see Findings), loses its alignment on 255, and reads past the IE fields when an element overruns them; the model does not reproduce those reads.
- Logging (`pr_*`, `dev_err`, `limLog`, `PELOGE`, `MTRACE`) is not modelled.

## Findings

| source | as written | input that shows it | evidently intended | confidence | as-written member | corrected member |
|---|---|---|---|---|---|---|
| drivers/net/wireless/qcacld-2.0/CORE/MAC/src/pe/rrm/rrmApi.c:57-73 | the signed minimum of the two powers is stored in a `tANI_U8` before clamping, so a negative power wraps to 128 or more and is clamped to the upper cap | `regMax = -1`, `apTxPower = 127`, with `0 < RRM_MIN_TX_PWR_CAP < RRM_MAX_TX_PWR_CAP < 128`: the result is the upper cap, while `regMax = 0` gives the lower cap | the signed minimum clamped into the caps, so that a lower regulatory limit never yields a higher power | medium, not executed | RrmPower.NegativePowerRaisesClamp | RrmPower.ClampedTxPowerMonotone |
| drivers/net/wireless/qcacld-2.0/CORE/MAC/src/pe/rrm/rrmApi.c:711-736 | `len = *(pBcnIes + 1) + 2` and `BcnNumIes -= len` are computed in `tANI_U8`, so an element with length byte 254 has `len == 0` and the walk never advances | a BSS whose IE list is `[0, 254]` (`BcnNumIes == 2`): the loop stays at offset 0 with the counter at 2 | the walk stopping at an element whose size does not fit a byte or that runs past the IE fields, on the same byte counter otherwise | medium, not executed | RrmIes.LengthByte254Stalls | RrmIes.WalkFit |

Another divergence is not a finding. The 7880 `exynos_eint_to_pin_num` takes bank names from the 7880 ALIVE table but pin counts from the 7870 one (pinctrl-exynos.c:1726-1728). On the real tables both give an offset of 9 (`Exynos7880.AliveEtcOffset`), so the result is the intended one.
