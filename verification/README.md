# Raspberry Pi hardware tests in Dafny

This project models the core of a small collection of Raspberry Pi test
programs written in C, and proves properties of that model. The programs cover three devices:

* **A WS2812B LED strip driven over SPI.** Each colour bit is sent as three SPI bits: 110 for a one, 100 for a zero. A pixel is nine SPI bytes in green, red, blue order. The transmit buffer holds 186 pixels followed by 100 zero bytes of reset padding.
  * `led_test_SPI.c` lights the LEDs one after the other.
  * `led_test_spi_improved_ui.c` moves a cursor and changes its colour from the keyboard.
* **A buzzer with four volume pins and a PWM tone on a clock pin.**
  * Two interactive programs step the volume or toggle single pins with the keyboard, and step the frequency with the arrow keys.
  * Two demo programs, one for lgpio and one for pigpio, ramp the volume at 440 Hz.
* **Buttons on an I2C port expander.** The inputs are pulled up, so a pressed button reads 0.
  * One program polls the expander.
  * One waits for the interrupt line through sysfs.
  * Two receive lgpio alerts and debounce them against a millisecond clock.

State that the C code updates in place is modelled as Dafny classes:

* the transmit buffer is an `array`;
* the cursor, the colour, the volume, the pin flags and `last_state` are fields;
* the GPIO chip is a `Chip` object whose maps record the last level written to each pin and the PWM settings of each pin.

Pure computations are functions, and the C loops are `while`/`for` loops with invariants. Each loop is proved against a specification function:

* `Encode` for the SPI encoding of a byte;
* `BlackFrame`/`WithPixel` for buffer contents;
* `Presses` for edge detection;
* `Replay`, `Screens`, `Remembered` and `Reported` for the main loops.

Modules:

| file | module | models |
|---|---|---|
| wrappers.dfy | Wrappers | `Option` |
| ws2812.dfy | Ws2812 | bit strings, the 3-bit symbol encoding, its decoder, `encode_byte` |
| frame.dfy | Frame | buffer layout, channel extraction, `set_pixel`'s byte writes |
| spi_improved_ui.dfy | SpiImprovedUi | `clamp`, key handling, `fill_black`, `update_display`, `cleanup`, the key loop |
| spi_basic.dfy | SpiBasic | the one-LED-at-a-time test with its zero-filling `clear` |
| gpio.dfy | Gpio | pin writes, PWM, `start_tone`/`stop_tone` of all four buzzer programs |
| volume.dfy | Volume | `set_volume` of the interactive and of the demo programs |
| keys.dfy | Keys | arrow-key frequency stepping shared by the interactive programs |
| buzzer_interactive.dfy | BuzzerInteractive | `buzzer_lgpio_interactive.c` |
| buzzer_single_pins.dfy | BuzzerSinglePins | `buzzer_interactive_single_pins.c` |
| buzzer_demo.dfy | BuzzerDemo | `buzzer_lgpio.c` and `buzzer.c` up to their abort |
| edges.dfy | Edges | the press-edge rule, the bit-scan loop, the actions, the debounce test |
| buttons_polling.dfy | ButtonsPolling | `read_buttons_no_interrupt.c` |
| buttons_sysfs.dfy | ButtonsSysfs | `read_buttons.c` |
| buttons_alert.dfy | ButtonsAlert | `read_buttons_lgpio.c` |
| buttons_full.dfy | ButtonsFull | `read_buttons_lgpio_full.c` |

## Model

| member | source | states |
|---|---|---|
| Ws2812.SpiImage | leds/led_test_spi_improved_ui.c:113-123 | the SPI image of a byte: each data bit, most significant first, becomes 110 or 100, and the 24 bits pack into exactly three bytes |
| Ws2812.Decode | leds/led_test_spi_improved_ui.c:116-117 | a group decodes only if it is three bytes whose every symbol has the form 1x0; a decoded value is what the middle bits spell |
| Ws2812.RoundTrip | leds/led_test_spi_improved_ui.c:113-123 | decoding the encoding of any byte gives that byte back |
| Ws2812.DecodeIffEncode | leds/led_test_spi_improved_ui.c:113-123 | a byte group decodes to v exactly when it is the encoding of v, so the encoding is injective |
| Ws2812.EncodeGroups | leds/led_test_spi_improved_ui.c:115-117 | in the encoding of v, SPI bit 3g is 1, bit 3g+2 is 0 and bit 3g+1 is data bit 7-g |
| Ws2812.EncodeIsSpiImage | leds/led_test_spi_improved_ui.c:114-122 | the word p the shift loop accumulates, split into its three bytes, is the symbol image of the byte |
| Ws2812.SymbolsBitsMsb | leds/led_test_spi_improved_ui.c:114-118 | after n loop steps, p is the value of the symbols of the n data bits read so far |
| Ws2812.AccumulatedByte | leds/led_test_spi_improved_ui.c:114-118 | after all eight steps, p equals the closed form SymbolWord(v) |
| Ws2812.AccumulatedHigh | leds/led_test_spi_improved_ui.c:114-118 | after the first four steps, p holds the symbols of data bits 7 to 4 |
| Ws2812.SymbolLoop | leds/led_test_spi_improved_ui.c:114-118 | the shift loop over bits 7 down to 0 leaves p equal to SymbolWord(v), the 24-bit symbol word of the byte |
| Ws2812.EncodeZero | leds/led_test_spi_improved_ui.c:95-98 | the byte 0 encodes as 0x92 0x49 0x24, the constant fill_black writes |
| Ws2812.EncodeFull | leds/led_test_spi_improved_ui.c:113-123 | the byte 0xFF encodes as 0xDB 0x6D 0xB6 |
| Ws2812.EncodeByte | leds/led_test_spi_improved_ui.c:113-123 | the buffer becomes the old buffer with Encode(val) spliced in at the offset: ptr[0..3] hold the encoding and no other byte changes |
| Ws2812.UnpackPack | leds/led_test_spi_improved_ui.c:119-122 | splitting a bit string into bytes, most significant bit first, and reading the bits back gives the same string |
| Ws2812.PackUnpack | leds/led_test_spi_improved_ui.c:119-122 | the bits of a byte sequence pack back into the same bytes |
| Ws2812.MiddlesSymbols | leds/led_test_spi_improved_ui.c:116-117 | expanding bits to symbols gives a well-formed stream whose middle bits are the data |
| Ws2812.SymbolsMiddles | leds/led_test_spi_improved_ui.c:116-117 | a well-formed symbol stream is the expansion of its middle bits |
| Ws2812.ValueOfBitsMsb | leds/led_test_spi_improved_ui.c:115-117 | reading the n bits of v, most significant first, as a number gives v |
| Ws2812.BitsMsbValueOf | leds/led_test_spi_improved_ui.c:115-117 | the bits of a bit string's value are that bit string |
| Ws2812.SymbolsAt | leds/led_test_spi_improved_ui.c:116-117 | symbol g of an expansion is 1, data bit g, 0 |
| Frame.FrameSize | leds/led_test_spi_improved_ui.c:79-80 | the data region is 9 bytes per LED, and the buffer adds 100 bytes of padding |
| Frame.Rgb | leds/led_test_spi_improved_ui.c:128-131 | a colour built from three channels has those channels as its red, green and blue bytes |
| Frame.RgbOfChannels | leds/led_test_spi_improved_ui.c:128-131 | a 24-bit colour is rebuilt from its three extracted channels |
| Frame.PixelDecodes | leds/led_test_spi_improved_ui.c:133-140 | the nine pixel bytes decode to green, then red, then blue |
| Frame.PixelOfChannels | leds/led_test_spi_improved_ui.c:133-140 | the pixel bytes are the encodings of g, r and b, in that order |
| Frame.BlackPixel | leds/led_test_spi_improved_ui.c:95-98 | colour 0 is three copies of the black pattern |
| Frame.WhitePixel | leds/led_test_SPI.c:136 | colour 0xFFFFFF is three copies of 0xDB 0x6D 0xB6 |
| Frame.RedPixel | leds/led_test_spi_improved_ui.c:133-140 | colour 0xFF0000 sends black, full, black (GRB order) |
| Frame.WithPixelSlot | leds/led_test_spi_improved_ui.c:133-140 | slot i of the new buffer holds the pixel bytes of the colour |
| Frame.WithPixelOtherSlot | leds/led_test_spi_improved_ui.c:133-140 | every other slot of the buffer is unchanged |
| Frame.WithPixelOverwrite | leds/led_test_spi_improved_ui.c:133-140 | writing LED i twice leaves only the second colour |
| Frame.PixelSplices | leds/led_test_spi_improved_ui.c:133-140 | the three encode_byte writes at offsets 9i, 9i+3 and 9i+6 together make WithPixel |
| Frame.WithPixelElsewhere | leds/led_test_spi_improved_ui.c:133-140 | writing slot i changes no byte outside it, the padding included |
| Frame.BlackSlot | leds/led_test_spi_improved_ui.c:101-106 | every slot of the blanked buffer is three black patterns |
| Frame.BlackSlotDecodes | leds/led_test_spi_improved_ui.c:101-106 | every channel of every slot of the blanked buffer decodes to 0 |
| Frame.DisplayLayout | leds/led_test_spi_improved_ui.c:160-169 | after blanking and writing LED i, slot i holds the colour, every other slot holds black and the padding is zero |
| Frame.ProgressSlot | leds/led_test_SPI.c:134-146 | after i LEDs of the test, slot j is black for j < i and still zero otherwise |
| Frame.OffPixel | leds/led_test_SPI.c:143-145 | a colour with three zero channels sends three black patterns |
| Frame.BlackDecodes | leds/led_test_spi_improved_ui.c:95-98 | the black pattern decodes to channel value 0 |
| Frame.ProgressStep | leds/led_test_SPI.c:143-145 | setting LED i to black on a buffer whose first i slots are black makes the first i+1 slots black |
| Frame.ProgressEnds | leds/led_test_SPI.c:132-146 | with no slot written the buffer is all zero; with all written it equals the blanked buffer |
| Frame.WritePixel | leds/led_test_spi_improved_ui.c:133-140 | the buffer becomes WithPixel of the old buffer |
| SpiImprovedUi.Clamp | leds/led_test_spi_improved_ui.c:172-176 | an in-range value is returned unchanged; the result is always a byte |
| SpiImprovedUi.ClampNearest | leds/led_test_spi_improved_ui.c:172-176 | the clamped value is the byte nearest to the argument |
| SpiImprovedUi.ClampMonotone | leds/led_test_spi_improved_ui.c:172-176 | clamping preserves order |
| SpiImprovedUi.CursorAfter | leds/led_test_spi_improved_ui.c:235-241 | the cursor stays on the strip, and keys other than a/s leave it |
| SpiImprovedUi.CursorUndo | leds/led_test_spi_improved_ui.c:235-241 | 'a' then 's', or 's' then 'a', returns the cursor to where it was |
| SpiImprovedUi.CursorWraps | leds/led_test_spi_improved_ui.c:235-241 | 'a' on the last LED goes to LED 0, and 's' on LED 0 goes to the last LED |
| SpiImprovedUi.Max3 | leds/led_test_spi_improved_ui.c:268-275 | the result is one of the channels and at least each of them |
| SpiImprovedUi.ColorAfter | leds/led_test_spi_improved_ui.c:225-323 | the colour after any key stays a 24-bit colour |
| SpiImprovedUi.ShiftTowards | leds/led_test_spi_improved_ui.c:243-262 | e/r/t raise one channel by 16, saturating at 255, and lower the other two by 8, saturating at 0 |
| SpiImprovedUi.WhiteKey | leds/led_test_spi_improved_ui.c:264-266 | 'w' restores the initial colour 0x8F8F8F |
| SpiImprovedUi.IntensityEdges | leds/led_test_spi_improved_ui.c:268-323 | 'd' on black gives grey 20,20,20; 'f' on black keeps black; 'd' with a saturated channel changes nothing |
| SpiImprovedUi.OtherKeysKeepColor | leds/led_test_spi_improved_ui.c:325-327 | keys other than e/r/t/w/d/f leave the colour |
| SpiImprovedUi.NextColor | leds/led_test_spi_improved_ui.c:225-323 | the imperative switch computes ColorAfter |
| SpiImprovedUi.Replay | leds/led_test_spi_improved_ui.c:221-332 | the cursor and colour after a run of keys stay valid |
| SpiImprovedUi.ReplayStopsAtQuit | leds/led_test_spi_improved_ui.c:231-233 | keys after a 'q' have no effect |
| SpiImprovedUi.ReplayAdvance | leds/led_test_spi_improved_ui.c:235-237 | n presses of 'a' advance the cursor by n modulo the strip length and keep the colour |
| SpiImprovedUi.Turns | leds/led_test_spi_improved_ui.c:235-237 | moving the cursor by a whole number of strip lengths keeps its index |
| SpiImprovedUi.ScreensLast | leds/led_test_spi_improved_ui.c:221-332 | every run of keys sends at least one buffer; the last one is the blanked buffer if a 'q' came, and otherwise the display of the state Replay gives |
| SpiImprovedUi.FullCircle | leds/led_test_spi_improved_ui.c:235-237 | a whole number of turns around the strip brings the cursor back |
| SpiImprovedUi.Controller.constructor | leds/led_test_spi_improved_ui.c:64-90 | the buffer is FRAME_LEN bytes, cursor 0, colour 0x8F8F8F; the first display sends the blanked buffer |
| SpiImprovedUi.Controller.FillBlack | leds/led_test_spi_improved_ui.c:94-111 | the buffer becomes the blanked buffer: the black pattern over the data, zero padding |
| SpiImprovedUi.Controller.SetPixel | leds/led_test_spi_improved_ui.c:125-141 | an index on the strip writes its slot; any other index, negative included, changes nothing |
| SpiImprovedUi.Controller.Show | leds/led_test_spi_improved_ui.c:143-145 | the whole buffer is sent and nothing else changes |
| SpiImprovedUi.Controller.UpdateDisplay | leds/led_test_spi_improved_ui.c:160-169 | the buffer sent shows the current colour on the current LED and black everywhere else |
| SpiImprovedUi.Controller.Cleanup | leds/led_test_spi_improved_ui.c:147-158 | the blanked buffer is sent |
| SpiImprovedUi.Controller.HandleKey | leds/led_test_spi_improved_ui.c:221-332 | 'q' cleans up and quits; every other key updates cursor and colour as CursorAfter/ColorAfter say and redisplays |
| SpiImprovedUi.Controller.Pass | leds/led_test_spi_improved_ui.c:221-332 | one loop pass: it quits exactly on 'q', having sent the blanked buffer and reached the final state; any other key moves the loop's position on by one key, with Replay and Screens still describing the rest of the run |
| SpiImprovedUi.Controller.Serve | leds/led_test_spi_improved_ui.c:221-332 | the loop ends in the state Replay gives, having sent exactly the buffers Screens lists; the buffer is blank after 'q' and the display otherwise |
| SpiImprovedUi.Controller.Run | leds/led_test_spi_improved_ui.c:201-334 | main: the device receives the first display, then the buffers Screens lists; the final state is Replay of the keys |
| SpiBasic.NegativeIndexAdmitted | leds/led_test_SPI.c:96 | every negative index passes the guard although it lies outside the strip |
| SpiBasic.ZeroNotDecodable | leds/led_test_SPI.c:34 | three zero bytes are not the encoding of any byte |
| SpiBasic.ZeroSlotsCarryNothing | leds/led_test_SPI.c:118-122 | after clear, no channel of any slot decodes |
| SpiBasic.TestFrames | leds/led_test_SPI.c:134-146 | the test sends two buffers per LED: LED i in the given colour over the progress buffer, then the progress buffer with LED i black |
| SpiBasic.LitFrameLayout | leds/led_test_SPI.c:134-146 | while LED i is lit, earlier slots are black, slot i is full white and later slots are still zero |
| SpiBasic.TestFrameAt | leds/led_test_SPI.c:134-146 | buffer 2i lights LED i, and buffer 2i+1 has LEDs 0..i black |
| SpiBasic.Strip.constructor | leds/led_test_SPI.c:60-70 | the buffer is FRAME_LEN zero bytes |
| SpiBasic.Strip.Show | leds/led_test_SPI.c:112-116 | the whole buffer is sent |
| SpiBasic.Strip.ZeroFill | leds/led_test_SPI.c:120 | every byte becomes 0 |
| SpiBasic.Strip.Clear | leds/led_test_SPI.c:118-122 | the zero buffer is sent |
| SpiBasic.Strip.Cleanup | leds/led_test_SPI.c:31-41 | the zero buffer is sent |
| SpiBasic.Strip.SetPixel | leds/led_test_SPI.c:95-110 | an index below LED_COUNT writes its slot; a larger one changes nothing |
| SpiBasic.Strip.TestLed | leds/led_test_SPI.c:135-145 | one turn of the loop sends LED i lit in white, then the buffer with LEDs 0..i black, which is left in the buffer |
| SpiBasic.Strip.Run | leds/led_test_SPI.c:124-151 | the device receives a zero buffer, the two buffers of every LED in order, then a zero buffer |
| Gpio.Chip.constructor | buzzer/buzzer_lgpio_interactive.c:160-189 | nothing written yet |
| Gpio.Chip.Write | buzzer/buzzer_lgpio_interactive.c:124-127 | only the pin's level changes |
| Gpio.Chip.TxPwm | buzzer/buzzer_lgpio_interactive.c:134-154 | only the pin's frequency and duty change |
| Gpio.Chip.SetPwmFrequency | buzzer.c:100 | only the pin's frequency changes |
| Gpio.Chip.SetPwmDuty | buzzer.c:103 | only the pin's duty changes |
| Gpio.LgStopTone | buzzer/buzzer_lgpio_interactive.c:134-137 | the tone stops and the clock pin is driven low |
| Gpio.LgStartTone | buzzer/buzzer_lgpio_interactive.c:144-154 | a positive frequency sounds at 50 % duty; zero or less stops the tone as stop_tone does; sounding iff hz > 0 |
| Gpio.LgDemoStartTone | buzzer_lgpio.c:99-109 | the same, except that stopping leaves the clock pin's level alone |
| Gpio.PigStopTone | buzzer.c:109-111 | duty 0, so no tone |
| Gpio.PigStartTone | buzzer.c:92-104 | a positive frequency is set with duty 128; otherwise duty 0 |
| Volume.ClampVolume | buzzer/buzzer_lgpio_interactive.c:93-98 | volumes are clamped to 0..8 and in-range volumes are kept |
| Volume.Levels | buzzer/buzzer_lgpio_interactive.c:100-122 | the pins' weights 4, 2, 2, 1 add up to the clamped volume; pins 1 and 0 are never both high; pin 1 only at volume 8 |
| Volume.LevelsUnique | buzzer/buzzer_lgpio_interactive.c:100-122 | Levels is the only such pattern |
| Volume.LevelsOfClamped | buzzer/buzzer_lgpio_interactive.c:93-98 | out-of-range volumes give the patterns of 8 and of 0 |
| Volume.WithLevels | buzzer/buzzer_lgpio_interactive.c:124-127 | the four volume pins read back the levels and no other pin changes |
| Volume.WithLevelsIdempotent | buzzer/buzzer_lgpio_interactive.c:124-127 | writing the same levels twice equals writing them once |
| Volume.WriteLevels | buzzer/buzzer_interactive_single_pins.c:90-95 | the pin map becomes WithLevels of the given levels |
| Volume.SetVolume | buzzer/buzzer_lgpio_interactive.c:93-129 | the pin map becomes WithLevels of Levels(volume); the assertion holds for every argument |
| Volume.DemoRemainder | buzzer_lgpio.c:66-86 | the remainder is 0..2, and it is 2 exactly at clamped volume 8 |
| Volume.DemoAssertion | buzzer_lgpio.c:88 | the demo's assertion holds exactly below volume 8 |
| Volume.DemoPins | buzzer_lgpio.c:72-89 | below 8, PIN_VOL_3 ends with the pin-2 level and PIN_VOL_0 with the pin-0 level of Levels |
| Volume.DemoVolumeFour | buzzer_lgpio.c:72-86 | volume 4 leaves both written pins low |
| Volume.SetVolumeDemo | buzzer_lgpio.c:63-92 | aborts iff the clamped volume is 8; writes PIN_VOL_3 with the second test's level, and PIN_VOL_0 with the remainder unless it aborts |
| Keys.FreqAfter | buzzer/buzzer_lgpio_interactive.c:238-243 | only right/left arrows change the frequency; reachable frequencies stay reachable and positive |
| Keys.FreqExtremes | buzzer/buzzer_lgpio_interactive.c:238-243 | 440 is reachable; the frequency tops out at 2040 and bottoms out at 90 |
| Keys.FreqUndo | buzzer/buzzer_lgpio_interactive.c:238-243 | right then left returns to the frequency below the top |
| BuzzerInteractive.VolumeAfter | buzzer/buzzer_lgpio_interactive.c:232-237 | only up/down arrows change the volume, and it stays within 0..8 |
| BuzzerInteractive.Replay | buzzer/buzzer_lgpio_interactive.c:221-255 | volume and frequency stay in range over any input |
| BuzzerInteractive.IgnoredInput | buzzer/buzzer_lgpio_interactive.c:225-246 | inputs other than 'q' and the arrows change neither setting |
| BuzzerInteractive.Setup | buzzer/buzzer_lgpio_interactive.c:160-189 | afterwards all volume pins and the clock pin are low and no tone sounds |
| BuzzerInteractive.Buzzer.constructor | buzzer/buzzer_lgpio_interactive.c:211-212 | volume 1, frequency 440 |
| BuzzerInteractive.Buzzer.Apply | buzzer/buzzer_lgpio_interactive.c:249-250 | the pins show the volume and the tone sounds at the frequency |
| BuzzerInteractive.Buzzer.Adjust | buzzer/buzzer_lgpio_interactive.c:225-246 | the escape-sequence switch sets volume and frequency as VolumeAfter and FreqAfter say |
| BuzzerInteractive.Buzzer.Step | buzzer/buzzer_lgpio_interactive.c:222-250 | 'q' quits without change; a cut-off escape changes nothing; any other input updates and re-applies |
| BuzzerInteractive.Buzzer.Cleanup | buzzer/buzzer_lgpio_interactive.c:261-262 | tone off, volume pins low |
| BuzzerInteractive.Buzzer.Run | buzzer/buzzer_lgpio_interactive.c:211-262 | the settings end as Replay says and the buzzer is silent |
| BuzzerSinglePins.Toggle | buzzer/buzzer_interactive_single_pins.c:212-223 | a/s flip pins 3/2; d/f flip pins 1/0 and never leave both high; other keys change nothing |
| BuzzerSinglePins.ToggleLowPins | buzzer/buzzer_interactive_single_pins.c:215-222 | 'd' flips pin 1 and clears pin 0 when pin 1 becomes high; 'f' mirrors it |
| BuzzerSinglePins.ToggleTwice | buzzer/buzzer_interactive_single_pins.c:213-214 | a or s twice restores the pins |
| BuzzerSinglePins.Replay | buzzer/buzzer_interactive_single_pins.c:190-233 | pins stay safe and the frequency reachable over any input |
| BuzzerSinglePins.Setup | buzzer/buzzer_interactive_single_pins.c:147-148 | all volume pins and the clock pin low, no tone |
| BuzzerSinglePins.Buzzer.constructor | buzzer/buzzer_interactive_single_pins.c:175-180 | all pins low, 440 Hz |
| BuzzerSinglePins.Buzzer.Apply | buzzer/buzzer_interactive_single_pins.c:227-228 | the pins show the flags and the tone sounds |
| BuzzerSinglePins.Buzzer.Adjust | buzzer/buzzer_interactive_single_pins.c:194-223 | a key toggles the pins as Toggle says and keeps the frequency; an arrow steps the frequency as FreqAfter says and keeps the pins |
| BuzzerSinglePins.Buzzer.Step | buzzer/buzzer_interactive_single_pins.c:191-228 | keys toggle pins, arrows step the frequency, 'q' quits |
| BuzzerSinglePins.Buzzer.Cleanup | buzzer/buzzer_interactive_single_pins.c:236-237 | tone off, volume pins low |
| BuzzerSinglePins.Buzzer.Run | buzzer/buzzer_interactive_single_pins.c:180-237 | the flags and frequency end as Replay says and the buzzer is silent |
| BuzzerDemo.DemoLevelsOverwrite | buzzer_lgpio.c:169-173 | each set_volume of the ramp overwrites what the previous one wrote |
| BuzzerDemo.Ramp | buzzer_lgpio.c:169-173 | the ramp aborts iff it reaches volume 8, leaving the pins of volume 7 with PIN_VOL_3 rewritten |
| BuzzerDemo.LgDemo | buzzer_lgpio.c:147-173 | the lgpio demo aborts in test 1 with the 440 Hz tone still sounding |
| BuzzerDemo.PigDemo | buzzer.c:130-158 | the pigpio demo aborts in test 1 with the 440 Hz tone still sounding |
| Edges.PressesFromExact | buttons/read_buttons_no_interrupt.c:70-75 | the scan from bit `from` lists exactly the newly pressed bits, each once, in increasing order |
| Edges.PressesExact | buttons/read_buttons_no_interrupt.c:70-75 | a bit is reported iff it is low now and was high before; the reports increase strictly |
| Edges.PressMask | buttons/read_buttons_no_interrupt.c:72-75 | the reported bits are the set bits of ~current & last |
| Edges.UnchangedReportsNothing | buttons/read_buttons_no_interrupt.c:66 | a read equal to the remembered byte reports nothing |
| Edges.ReleasesNotReported | buttons/read_buttons_no_interrupt.c:75 | a bit going from low to high is not reported |
| Edges.FirstScan | buttons/read_buttons_no_interrupt.c:43 | against the initial 0xFF every low bit is reported, in increasing order |
| Edges.ReportedOnce | buttons/read_buttons_no_interrupt.c:70 | no bit is reported twice in one scan |
| Edges.ScanBit | buttons/read_buttons_no_interrupt.c:72-75 | one loop turn appends bit i exactly when it is newly pressed |
| Edges.ScanPresses | buttons/read_buttons_no_interrupt.c:70-92 | the bit loop reports Presses(current, last) |
| Edges.GroupAction | buttons/read_buttons_no_interrupt.c:77-90 | bits 0, 1 and 2 have their own actions; bits 3 to 7 take the default branch, naming the bit |
| Edges.GroupActionInjective | buttons/read_buttons.c:148-153 | different bits lead to different actions |
| Edges.AlertAction | buttons/read_buttons_lgpio.c:70-71 | only bits 0 and 1 get an extra action line |
| Edges.ScanAndRemember | buttons/read_buttons.c:143-159 | port 0 is scanned against the remembered port 0, then both bytes are remembered |
| ButtonsPolling.MonitorTake | buttons/read_buttons_no_interrupt.c:52-93 | handling read j (nothing for a failed read, its presses for a good one) moves Remembered and Reported on from j to j+1 without changing what the whole run remembers and reports |
| ButtonsPolling.NoReadKeepsState | buttons/read_buttons_no_interrupt.c:52-57 | failed reads keep the remembered byte and report nothing |
| ButtonsPolling.RemembersLastRead | buttons/read_buttons_no_interrupt.c:93 | at the end the loop remembers the last successful read |
| ButtonsPolling.SteadyPortReportsOnce | buttons/read_buttons_no_interrupt.c:66-93 | a port that keeps reading the same byte has its presses reported once |
| ButtonsPolling.Poller.constructor | buttons/read_buttons_no_interrupt.c:43 | lastState starts at 0xFF |
| ButtonsPolling.Poller.Poll | buttons/read_buttons_no_interrupt.c:52-93 | a failed read changes nothing; a good read reports Presses and is remembered |
| ButtonsPolling.Poller.Take | buttons/read_buttons_no_interrupt.c:52-93 | one pass of the loop keeps the loop invariant: reported so far plus Reported of the rest is the whole run's report |
| ButtonsPolling.Poller.Run | buttons/read_buttons_no_interrupt.c:45-95 | the loop reports exactly Reported and remembers Remembered of the reads |
| ButtonsSysfs.HeldAtStartNotReported | buttons/read_buttons.c:106-109 | a button low in the seeding read is not reported by the next event |
| ButtonsSysfs.EventMonitor.constructor | buttons/read_buttons.c:96-109 | last_state is the initial read if it returned two bytes, else 0xFF 0xFF |
| ButtonsSysfs.EventMonitor.OnEvent | buttons/read_buttons.c:136-159 | a failed read changes nothing; otherwise port 0 is scanned and both bytes are remembered |
| ButtonsAlert.AlertMonitor.constructor | buttons/read_buttons_lgpio.c:97-104 | last_state is the initial read if it returned two bytes, else 0xFF 0xFF; the last interrupt time is 0 |
| ButtonsAlert.AlertMonitor.OnInterrupt | buttons/read_buttons_lgpio.c:39-79 | an event within 20 ms changes nothing; otherwise the time is recorded; a failed write or read then returns; a good read is scanned and remembered |
| ButtonsFull.Warnings | buttons/read_buttons_lgpio_full.c:50-55 | one warning iff either configuration byte is not 0xFF; another iff the interrupt pin reads 0 |
| ButtonsFull.FullMonitor.constructor | buttons/read_buttons_lgpio_full.c:22 | last_state 0xFF 0xFF, with no seeding read |
| ButtonsFull.FullMonitor.OnInterrupt | buttons/read_buttons_lgpio_full.c:60-86 | an event within 50 ms changes nothing; otherwise the time is recorded before the read; a short read returns; a good read is scanned and remembered |

## Left out

- Device access is not modelled. This covers opening and configuring the SPI, I2C and GPIO devices, `ioctl`, `malloc`/`free`/`close`, and the pin claiming of the lgpio and pigpio libraries, along with all of their failure paths. A transmit is modelled as the whole buffer being appended to `sent`. A pin write is an update of the `Chip` maps.
- Terminal raw mode, all `printf`/`perror` output, sleeps, `SIGINT` handlers with `keep_running`, and `exit` are not modelled. The key and read sequences are finite parameters, and a run ends at 'q' or when the input runs out.
- SpiImprovedUi.ColorAfter: the 'd' and 'f' keys rescale the colour in floating point. The rescaled colour is taken as the parameter `scaled`; only the integer guards around it are computed.
- `led_test.c` is not part of this model.
- BuzzerDemo.LgDemo, BuzzerDemo.PigDemo: tests 2 and 3 and the cleanup of the demos are not modelled. The first test's set_volume(8) aborts the program before them. The model also does not cover a build with assertions disabled, where the remainder 2 would be written to PIN_VOL_0.
- SpiBasic.Strip.SetPixel: requires index >= 0. A negative index passes the program's guard and writes before the buffer. That write is undefined behaviour and is not modelled, but the lemma NegativeIndexAdmitted records that such indices pass the guard.
- Gpio.Chip.TxPwm: the duty cycle is kept as a whole number of percent. The lgpio programs pass 50.0 as a floating-point value.
- The interactive buzzer programs' `read` calls returning -1 are not modelled. Only a short escape sequence (`read` returning 0) is modelled, as the input `Cut`.
- The button programs' unchecked writes of the register pointer (sysfs program, `main` of the lgpio program) and the unchecked `lseek`/`read` of the sysfs value file are not modelled.
- The register dump's unchecked block reads are not modelled: if they fail, the bytes are uninitialised. `Warnings` takes the bytes as read.
- The button programs' event loops are modelled one event at a time. For the polling program, `Run` also models a finite run of the loop. The callbacks run on lgpio's thread, and that concurrency is not modelled. The clock is the parameter `now`.
- Integer widths are not modelled: `long long` timestamps, `int` frequencies and volumes, and `uint32_t` colours. In the modelled ranges none of them can overflow.

## Findings

| source | as written | input that shows it | evidently intended | confidence | as-written member | corrected member |
|---|---|---|---|---|---|---|
| leds/led_test_SPI.c:96 | set_pixel rejects only `index >= LED_COUNT` | index -1 passes the guard, and slot -1 starts 9 bytes before the buffer | also reject negative indices, as the improved program's set_pixel does | high, not executed | SpiBasic.NegativeIndexAdmitted | SpiImprovedUi.Controller.SetPixel |
| leds/led_test_SPI.c:34 | clear and cleanup fill the buffer with zero bytes, meant to switch every LED off | SIGINT while LED i is lit: the zero buffer carries no decodable colour, so the LED keeps its colour | send the encoded black pattern, as fill_black does | medium, not executed | SpiBasic.ZeroSlotsCarryNothing | Frame.BlackSlotDecodes |
| buzzer_lgpio.c:80-86 | the weight-2 branch writes PIN_VOL_3 again, and PIN_VOL_1/PIN_VOL_2 are never written (the same in buzzer.c:71-77) | set_volume(4): PIN_VOL_3 is written 1, then 0, so both written pins end low | drive the weight-2 pin, as the interactive program's set_volume does | high, not executed | Volume.DemoVolumeFour | Volume.SetVolume |
| buzzer_lgpio.c:88 | asserts a remainder of 0 or 1 after subtracting 4 and 2 (the same in buzzer.c:80) | set_volume(8), reached by the ramp of test 1, leaves remainder 2 and aborts | let remainder 2 select pin 1, as the interactive program does | high, not executed | Volume.DemoAssertion | Volume.SetVolume |
